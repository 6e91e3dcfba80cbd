/**
 Taking secrets out of log lines (worker.rs, redact_secrets): for each marker an in-place loop that
 replaces what follows the marker up to a semicolon. No value survives, and a second pass changes
 nothing.
 */
module Redaction {
  import opened Common

  const KEY := "sharedaccesskey="
  const SIGNATURE := "sharedaccesssignature="
  const REDACTED := "[REDACTED]"

  predicate SameLower(t: string, marker: string) {
    |t| == |marker| && (|t| == 0 || (LowerChar(t[0]) == marker[0] && SameLower(t[1..], marker[1..])))
  }

  /** The marker stands at `i`, in any case. */
  predicate Occurs(s: string, i: nat, marker: string) {
    i + |marker| <= |s| && SameLower(s[i..i + |marker|], marker)
  }

  function Find(s: string, marker: string, from: nat): (r: Option<nat>)
    requires from <= |s|
    ensures r.Some? ==> from <= r.value && Occurs(s, r.value, marker)
    decreases |s| - from
  {
    if Occurs(s, from, marker) then Some(from) else if from == |s| then None else Find(s, marker, from + 1)
  }

  lemma {:induction false} FindIsFirst(s: string, marker: string, from: nat, i: nat)
    requires from <= i && from <= |s| && Occurs(s, i, marker)
    ensures Find(s, marker, from).Some? && Find(s, marker, from).value <= i
    decreases |s| - from
  {
    if !Occurs(s, from, marker) {
      FindIsFirst(s, marker, from + 1, i);
    }
  }

  /** Where the value that starts at `from` ends. */
  function ValueEnd(s: string, from: nat): (e: nat)
    requires from <= |s|
    ensures from <= e <= |s| && (e < |s| ==> s[e] == ';')
    ensures forall k :: from <= k < e ==> s[k] != ';'
    decreases |s| - from
  {
    if from == |s| || s[from] == ';' then from else ValueEnd(s, from + 1)
  }

  /** One marker: keep up to and including it, replace its value, go on after the value. */
  function Pass(s: string, marker: string, mask: string): string
    requires marker != ""
    decreases |s|
  {
    match Find(s, marker, 0)
    case None => s
    case Some(i) =>
      var v := i + |marker|;
      s[..v] + mask + Pass(s[ValueEnd(s, v)..], marker, mask)
  }

  function Redact(s: string): string {
    Pass(Pass(s, KEY, REDACTED), SIGNATURE, REDACTED)
  }

  lemma OccursInSuffix(s: string, from: nat, i: nat, marker: string)
    requires from <= |s|
    ensures Occurs(s[from..], i, marker) <==> Occurs(s, from + i, marker)
  {
    if from + i + |marker| <= |s| {
      assert s[from..][i..i + |marker|] == s[from + i..from + i + |marker|];
    }
  }

  lemma OccursInPrefix(s: string, n: nat, i: nat, marker: string)
    requires n <= |s|
    ensures Occurs(s[..n], i, marker) <==> i + |marker| <= n && Occurs(s, i, marker)
  {
    if i + |marker| <= n {
      assert s[..n][i..i + |marker|] == s[i..i + |marker|];
    }
  }

  lemma {:induction false} FindInSuffix(s: string, marker: string, from: nat, k: nat)
    requires from + k <= |s|
    ensures Find(s[from..], marker, k) ==
              match Find(s, marker, from + k) { case None => None case Some(i) => Some(i - from) }
    decreases |s| - k
  {
    OccursInSuffix(s, from, k, marker);
    if !Occurs(s, from + k, marker) && from + k < |s| {
      FindInSuffix(s, marker, from, k + 1);
    }
  }

  lemma {:induction false} ValueEndInSuffix(s: string, from: nat, at: nat)
    requires from + at <= |s|
    ensures ValueEnd(s[from..], at) == ValueEnd(s, from + at) - from
    decreases |s| - at
  {
    if from + at < |s| && s[from + at] != ';' {
      ValueEndInSuffix(s, from, at + 1);
    }
  }

  /** The in-place loop for one marker. */
  method RedactMarker(s: string, marker: string, mask: string) returns (out: string)
    requires marker != ""
    ensures out == Pass(s, marker, mask)
  {
    out := s;
    var searchFrom := 0;
    while true
      invariant 0 <= searchFrom <= |out|
      invariant Pass(s, marker, mask) == out[..searchFrom] + Pass(out[searchFrom..], marker, mask)
      decreases |out| - searchFrom
    {
      FindInSuffix(out, marker, searchFrom, 0);
      var found := Find(out, marker, searchFrom);
      if found == None {
        assert out == out[..searchFrom] + out[searchFrom..];
        break;
      }
      var start := found.value + |marker|;
      var end := ValueEnd(out, start);
      var next := out[..start] + mask + out[end..];
      PassStep(out, marker, mask, searchFrom, start, end, next, start + |mask|);
      out, searchFrom := next, start + |mask|;
    }
  }

  lemma PassStep(out: string, marker: string, mask: string, from: nat, start: nat, end: nat, next: string, now: nat)
    requires marker != "" && from <= |out| && Find(out, marker, from).Some?
    requires start == Find(out, marker, from).value + |marker| && end == ValueEnd(out, start)
    requires next == out[..start] + mask + out[end..] && now == start + |mask|
    ensures now <= |next| && |next| - now < |out| - from
    ensures out[..from] + Pass(out[from..], marker, mask) == next[..now] + Pass(next[now..], marker, mask)
  {
    var after := Pass(out[end..], marker, mask);
    PassTail(out, marker, mask, from, start, end);
    Splice(out, mask, from, start, end, after, next, now);
  }

  lemma PassTail(out: string, marker: string, mask: string, from: nat, start: nat, end: nat)
    requires marker != "" && from <= |out| && Find(out, marker, from).Some?
    requires start == Find(out, marker, from).value + |marker| && end == ValueEnd(out, start)
    ensures Pass(out[from..], marker, mask) == out[from..start] + mask + Pass(out[end..], marker, mask)
  {
    FindInSuffix(out, marker, from, 0);
    ValueEndInSuffix(out, from, start - from);
    SuffixParts(out, from, start, end);
    PassUnfolds(out[from..], marker, mask, start - from, end - from, out[from..start], out[end..]);
  }

  lemma SuffixParts(s: string, from: nat, start: nat, end: nat)
    requires from <= start <= end <= |s|
    ensures s[from..][..start - from] == s[from..start] && s[from..][end - from..] == s[end..]
  {
  }

  lemma PassUnfolds(s: string, marker: string, mask: string, v: nat, e: nat, before: string, after: string)
    requires marker != "" && |marker| <= v <= |s| && Find(s, marker, 0) == Some(v - |marker|) && e == ValueEnd(s, v)
    requires before == s[..v] && after == s[e..]
    ensures Pass(s, marker, mask) == before + mask + Pass(after, marker, mask)
  {
    assert v - |marker| + |marker| == v;
  }

  lemma Splice(out: string, mask: string, from: nat, start: nat, end: nat, after: string, next: string, now: nat)
    requires from <= start <= end <= |out|
    requires next == out[..start] + mask + out[end..] && now == start + |mask|
    ensures next[..now] + after == out[..from] + (out[from..start] + mask + after)
    ensures next[now..] == out[end..]
  {
    assert out[..start] == out[..from] + out[from..start];
    Regroup(out[..from], out[from..start], mask, after);
    Spliced(out[..start] + mask, out[end..]);
  }

  lemma Regroup(a: string, b: string, c: string, d: string)
    ensures a + (b + c + d) == (a + b + c) + d
  {
  }

  lemma Spliced(a: string, b: string)
    ensures (a + b)[..|a|] == a && (a + b)[|a|..] == b
  {
  }

  method RedactSecrets(s: string) returns (out: string)
    ensures out == Redact(s)
  {
    out := RedactMarker(s, KEY, REDACTED);
    out := RedactMarker(out, SIGNATURE, REDACTED);
  }

  // What is guaranteed of the result --------------------------------------------------------------

  /** Of the replacement text only this matters: bracketed, and without a semicolon. */
  predicate Mask(mask: string) {
    |mask| == 10 && mask[0] == '[' && mask[9] == ']' && forall k :: 0 <= k < |mask| ==> mask[k] != ';'
  }

  /** Of a marker only this matters: longer than the mask, ends in its only '=', no bracket or semicolon. */
  predicate Marker(m: string) {
    |m| > 10 && forall k :: 0 <= k < |m| ==>
      m[k] != '[' && m[k] != ']' && m[k] != ';' && (m[k] == '=' <==> k == |m| - 1)
  }

  /** Markers that cannot end at the same place. */
  predicate Apart(a: string, b: string) {
    Marker(a) && Marker(b) && a[|a| - 2] != b[|b| - 2]
  }

  /** At `j` stands the mask and then a semicolon or the end. */
  predicate Masked(s: string, j: nat, mask: string) {
    j + |mask| <= |s| && s[j..j + |mask|] == mask && (j + |mask| < |s| ==> s[j + |mask|] == ';')
  }

  /** Every occurrence of the marker is followed by the mask instead of a value. */
  ghost predicate Clean(s: string, marker: string, mask: string) {
    forall i: nat :: Occurs(s, i, marker) ==> Masked(s, i + |marker|, mask)
  }

  lemma {:induction false} SameLowerAt(t: string, m: string, k: nat)
    requires SameLower(t, m) && k < |m|
    ensures LowerChar(t[k]) == m[k]
  {
    if k > 0 {
      SameLowerAt(t[1..], m[1..], k - 1);
    }
  }

  /** A marker stands exactly where the text agrees with it, letter case aside. */
  lemma {:induction false} SameLowerIff(t: string, m: string)
    ensures SameLower(t, m) <==> |t| == |m| && forall k :: 0 <= k < |m| ==> LowerChar(t[k]) == m[k]
  {
    if |t| == |m| && |t| > 0 {
      SameLowerIff(t[1..], m[1..]);
      assert forall k :: 1 <= k < |m| ==> t[k] == t[1..][k - 1] && m[k] == m[1..][k - 1];
      assert forall j :: 0 <= j < |m| - 1 ==> t[1..][j] == t[j + 1] && m[1..][j] == m[j + 1];
    }
  }

  lemma OccursIff(s: string, i: nat, marker: string)
    ensures Occurs(s, i, marker) <==>
              i + |marker| <= |s| && forall k :: 0 <= k < |marker| ==> LowerChar(s[i + k]) == marker[k]
  {
    if i + |marker| <= |s| {
      var t := s[i..i + |marker|];
      SameLowerIff(t, marker);
      assert forall k :: 0 <= k < |marker| ==> t[k] == s[i + k];
    }
  }

  lemma CharAt(s: string, i: nat, m: string, k: nat)
    requires Marker(m) && Occurs(s, i, m) && k < |m|
    ensures LowerChar(s[i + k]) == m[k]
    ensures s[i + k] != '[' && s[i + k] != ']' && s[i + k] != ';'
    ensures s[i + k] == '=' <==> k == |m| - 1
  {
    SameLowerAt(s[i..i + |m|], m, k);
  }

  /** A position holding a bracket or a semicolon is no part of an occurrence. */
  lemma NotInside(s: string, i: nat, m: string, at: nat)
    requires Marker(m) && Occurs(s, i, m) && at < |s|
    requires s[at] == '[' || s[at] == ']' || s[at] == ';'
    ensures at < i || i + |m| <= at
  {
    if i <= at < i + |m| {
      CharAt(s, i, m, at - i);
    }
  }

  /** An occurrence in `x + mask + y` lies in `x` or in `y`. */
  lemma OccursBeside(x: string, mask: string, y: string, m: string, i: nat)
    requires Marker(m) && Mask(mask) && Occurs(x + mask + y, i, m)
    ensures (i + |m| <= |x| && Occurs(x, i, m)) ||
            (i >= |x| + |mask| && Occurs(y, i - |x| - |mask|, m))
  {
    var s := x + mask + y;
    NotInside(s, i, m, |x|);
    NotInside(s, i, m, |x| + 9);
    if i + |m| <= |x| {
      assert s[..|x|] == x;
      OccursInPrefix(s, |x|, i, m);
    } else {
      assert s[|x| + |mask|..] == y;
      OccursInSuffix(s, |x| + |mask|, i - |x| - |mask|, m);
    }
  }

  lemma PassKeepsHead(t: string, m: string, mask: string)
    requires Marker(m) && (|t| == 0 || t[0] == ';')
    ensures if |t| == 0 then |Pass(t, m, mask)| == 0 else |Pass(t, m, mask)| > 0 && Pass(t, m, mask)[0] == ';'
  {
    var found := Find(t, m, 0);
    if found.Some? {
      NotInside(t, found.value, m, 0);
    }
  }

  lemma MaskedAfter(x: string, mask: string, y: string, j: nat)
    requires |y| == 0 || y[0] == ';'
    ensures Masked(x + mask + y, |x|, mask)
    ensures Masked(y, j, mask) ==> Masked(x + mask + y, |x| + |mask| + j, mask)
  {
    var s, n := x + mask + y, |x| + |mask|;
    assert s[|x|..n] == mask;
    if Masked(y, j, mask) {
      assert s[n + j..n + j + |mask|] == y[j..j + |mask|];
    }
  }

  /** A pass leaves no value behind its marker. */
  lemma {:induction false} PassCleans(s: string, m: string, mask: string)
    requires Marker(m) && Mask(mask)
    ensures Clean(Pass(s, m, mask), m, mask)
    decreases |s|
  {
    var found := Find(s, m, 0);
    if found == None {
      forall i: nat ensures !Occurs(s, i, m) {
        if Occurs(s, i, m) { FindIsFirst(s, m, 0, i); }
      }
    } else {
      var v := found.value + |m|;
      var rest := s[ValueEnd(s, v)..];
      PassCleans(rest, m, mask);
      PassKeepsHead(rest, m, mask);
      OneMoreClean(s, m, mask, found.value, Pass(rest, m, mask));
    }
  }

  lemma OneMoreClean(s: string, m: string, mask: string, at: nat, y: string)
    requires Marker(m) && Mask(mask) && Find(s, m, 0) == Some(at)
    requires Clean(y, m, mask) && (|y| == 0 || y[0] == ';')
    ensures Clean(s[..at + |m|] + mask + y, m, mask)
  {
    var x := s[..at + |m|];
    forall i: nat | Occurs(x + mask + y, i, m) ensures Masked(x + mask + y, i + |m|, mask) {
      OccursBeside(x, mask, y, m, i);
      if i + |m| <= |x| {
        OccursInPrefix(s, |x|, i, m);
        FindIsFirst(s, m, 0, i);
        MaskedAfter(x, mask, y, 0);
      } else {
        MaskedAfter(x, mask, y, i - |x| - |mask| + |m|);
      }
    }
  }

  /** A mask in front of an occurrence of the other marker ends before that begins. */
  lemma MaskedBefore(s: string, a: string, i: nat, b: string, j: nat, mask: string)
    requires Apart(a, b) && Mask(mask) && Occurs(s, i, a) && Occurs(s, j, b)
    requires Masked(s, i + |a|, mask) && i + |a| <= j + |b|
    ensures i + |a| + |mask| < j
  {
    var at := i + |a|;
    CharAt(s, i, a, |a| - 1);
    if at == j + |b| {
      CharAt(s, i, a, |a| - 2);
      CharAt(s, j, b, |b| - 2);
    } else if at > j {
      CharAt(s, j, b, at - 1 - j);
    }
    assert s[at..at + |mask|][0] == s[at] && s[at..at + |mask|][9] == s[at + 9];
    NotInside(s, j, b, at);
    NotInside(s, j, b, at + 9);
    if at + |mask| < |s| {
      NotInside(s, j, b, at + |mask|);
    }
  }

  lemma CleanSuffix(s: string, m: string, mask: string, from: nat)
    requires Clean(s, m, mask) && from <= |s|
    ensures Clean(s[from..], m, mask)
  {
    forall i: nat | Occurs(s[from..], i, m) ensures Masked(s[from..], i + |m|, mask) {
      OccursInSuffix(s, from, i, m);
      var j := i + |m|;
      assert s[from..][j..j + |mask|] == s[from + j..from + j + |mask|];
    }
  }

  /** A pass for one marker does not undo the pass for the other. */
  lemma {:induction false} PassKeepsClean(s: string, a: string, b: string, mask: string)
    requires Apart(a, b) && Mask(mask) && Clean(s, a, mask)
    ensures Clean(Pass(s, b, mask), a, mask)
    decreases |s|
  {
    var found := Find(s, b, 0);
    if found.Some? {
      var e := ValueEnd(s, found.value + |b|);
      CleanSuffix(s, a, mask, e);
      PassKeepsClean(s[e..], a, b, mask);
      PassKeepsHead(s[e..], b, mask);
      StillClean(s, a, b, mask, found.value, Pass(s[e..], b, mask));
    }
  }

  lemma StillClean(s: string, a: string, b: string, mask: string, at: nat, y: string)
    requires Apart(a, b) && Mask(mask) && Clean(s, a, mask) && Occurs(s, at, b)
    requires Clean(y, a, mask) && (|y| == 0 || y[0] == ';')
    ensures Clean(s[..at + |b|] + mask + y, a, mask)
  {
    var x := s[..at + |b|];
    forall i: nat | Occurs(x + mask + y, i, a) ensures Masked(x + mask + y, i + |a|, mask) {
      OccursBeside(x, mask, y, a, i);
      if i + |a| <= |x| {
        OccursInPrefix(s, |x|, i, a);
        StillMasked(s, a, b, mask, at, y, i);
      } else {
        MaskedAfter(x, mask, y, i - |x| - |mask| + |a|);
      }
    }
  }

  lemma StillMasked(s: string, a: string, b: string, mask: string, at: nat, y: string, i: nat)
    requires Apart(a, b) && Mask(mask) && Occurs(s, at, b) && Occurs(s, i, a)
    requires Masked(s, i + |a|, mask) && i + |a| <= at + |b|
    ensures Masked(s[..at + |b|] + mask + y, i + |a|, mask)
  {
    MaskedBefore(s, a, i, b, at, mask);
    MaskedWithin(s, at + |b|, mask, mask + y, i + |a|);
    assert s[..at + |b|] + mask + y == s[..at + |b|] + (mask + y);
  }

  lemma MaskedWithin(s: string, n: nat, mask: string, y: string, j: nat)
    requires n <= |s| && Masked(s, j, mask) && j + |mask| < n
    ensures Masked(s[..n] + y, j, mask)
  {
    var t := s[..n] + y;
    assert t[j..j + |mask|] == s[j..j + |mask|];
  }

  /** A stretch right after an occurrence of the marker, up to the next semicolon or the end. */
  predicate IsValue(s: string, marker: string, cut: (nat, nat)) {
    |marker| <= cut.0 <= cut.1 <= |s| && Occurs(s, cut.0 - |marker|, marker) && cut.1 == ValueEnd(s, cut.0)
  }

  /** Values at or after `from`, one after the other. */
  predicate Values(s: string, marker: string, cuts: seq<(nat, nat)>, from: nat) {
    from <= |s| &&
    (|cuts| == 0 || (from <= cuts[0].0 && IsValue(s, marker, cuts[0]) && Values(s, marker, cuts[1..], cuts[0].1)))
  }

  /** The string from `from` on with the given stretches replaced by the mask. */
  function Replaced(s: string, marker: string, cuts: seq<(nat, nat)>, from: nat, mask: string): string
    requires Values(s, marker, cuts, from)
  {
    if |cuts| == 0 then s[from..]
    else s[from..cuts[0].0] + mask + Replaced(s, marker, cuts[1..], cuts[0].1, mask)
  }

  /** A pass replaces values, each after an occurrence of its marker, and touches nothing else. */
  lemma {:induction false} PassReplacesValues(s: string, marker: string, mask: string, from: nat) returns (cuts: seq<(nat, nat)>)
    requires marker != "" && from <= |s|
    ensures Values(s, marker, cuts, from)
    ensures Pass(s[from..], marker, mask) == Replaced(s, marker, cuts, from, mask)
    decreases |s| - from
  {
    var found := Find(s, marker, from);
    FindInSuffix(s, marker, from, 0);
    if found == None {
      cuts := [];
    } else {
      var v := found.value + |marker|;
      var e := ValueEnd(s, v);
      var rest := PassReplacesValues(s, marker, mask, e);
      PassTail(s, marker, mask, from, v, e);
      cuts := OneMoreValue(s, marker, mask, from, v, e, rest);
    }
  }

  lemma OneMoreValue(s: string, marker: string, mask: string, from: nat, v: nat, e: nat, rest: seq<(nat, nat)>)
      returns (cuts: seq<(nat, nat)>)
    requires from <= v && IsValue(s, marker, (v, e)) && Values(s, marker, rest, e)
    ensures Values(s, marker, cuts, from)
    ensures Replaced(s, marker, cuts, from, mask) == s[from..v] + mask + Replaced(s, marker, rest, e, mask)
  {
    cuts := [(v, e)] + rest;
    assert cuts[1..] == rest;
  }

  /** A string in which every marker is already masked is left as it is. */
  lemma {:induction false} PassFixesClean(s: string, m: string, mask: string)
    requires Marker(m) && Mask(mask) && Clean(s, m, mask)
    ensures Pass(s, m, mask) == s
    decreases |s|
  {
    var found := Find(s, m, 0);
    if found.Some? {
      var v := found.value + |m|;
      var e := v + |mask|;
      MaskedValueEnds(s, v, v, mask);
      CleanSuffix(s, m, mask, e);
      PassFixesClean(s[e..], m, mask);
      PassUnfolds(s, m, mask, v, e, s[..v], s[e..]);
      ThreeParts(s, v, e);
    }
  }

  lemma ThreeParts(s: string, v: nat, e: nat)
    requires v <= e <= |s|
    ensures s == s[..v] + s[v..e] + s[e..]
  {
  }

  lemma {:induction false} MaskedValueEnds(s: string, v: nat, from: nat, mask: string)
    requires Mask(mask) && Masked(s, v, mask) && v <= from <= v + |mask|
    ensures ValueEnd(s, from) == v + |mask|
    decreases v + |mask| - from
  {
    if from < v + |mask| {
      assert s[v..v + |mask|][from - v] == s[from];
      MaskedValueEnds(s, v, from + 1, mask);
    }
  }

  lemma MarkersAndMask()
    ensures Apart(KEY, SIGNATURE) && Mask(REDACTED)
  {
  }

  /** The result holds no value behind either marker. */
  lemma RedactedIsClean(s: string)
    ensures Clean(Redact(s), KEY, REDACTED) && Clean(Redact(s), SIGNATURE, REDACTED)
  {
    MarkersAndMask();
    BothClean(s, KEY, SIGNATURE, REDACTED);
  }

  /** In plain words: after "SharedAccessKey=" or "SharedAccessSignature=", in any letter case, stands the mask. */
  lemma RedactedHides(s: string, i: nat)
    ensures var out := Redact(s);
            i + 16 <= |out| && (forall k :: 0 <= k < 16 ==> LowerChar(out[i + k]) == "sharedaccesskey="[k]) ==>
              i + 26 <= |out| && out[i + 16..i + 26] == "[REDACTED]" && (i + 26 < |out| ==> out[i + 26] == ';')
    ensures var out := Redact(s);
            i + 22 <= |out| && (forall k :: 0 <= k < 22 ==> LowerChar(out[i + k]) == "sharedaccesssignature="[k]) ==>
              i + 32 <= |out| && out[i + 22..i + 32] == "[REDACTED]" && (i + 32 < |out| ==> out[i + 32] == ';')
  {
    RedactedIsClean(s);
    OccursIff(Redact(s), i, KEY);
    OccursIff(Redact(s), i, SIGNATURE);
  }

  lemma BothClean(s: string, a: string, b: string, mask: string)
    requires Apart(a, b) && Mask(mask)
    ensures Clean(Pass(Pass(s, a, mask), b, mask), a, mask)
    ensures Clean(Pass(Pass(s, a, mask), b, mask), b, mask)
  {
    var once := Pass(s, a, mask);
    PassCleans(s, a, mask);
    PassCleans(once, b, mask);
    PassKeepsClean(once, a, b, mask);
  }

  /** Exactly the strings without a value to hide are left alone; so redacting twice is redacting once. */
  lemma RedactIsStable(s: string)
    ensures Redact(s) == s <==> Clean(s, KEY, REDACTED) && Clean(s, SIGNATURE, REDACTED)
    ensures Redact(Redact(s)) == Redact(s)
  {
    RedactedIsClean(s);
    if Clean(s, KEY, REDACTED) && Clean(s, SIGNATURE, REDACTED) {
      CleanIsFixed(s);
    }
    CleanIsFixed(Redact(s));
  }

  lemma CleanIsFixed(s: string)
    requires Clean(s, KEY, REDACTED) && Clean(s, SIGNATURE, REDACTED)
    ensures Redact(s) == s
  {
    MarkersAndMask();
    PassFixesClean(s, KEY, REDACTED);
    PassFixesClean(s, SIGNATURE, REDACTED);
  }
}
