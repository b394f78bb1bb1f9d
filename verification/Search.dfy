/** The C library's substring search. */
module Search {
  import opened Wrappers

  predicate Occurs(h: string, needle: string, k: nat) {
    k + |needle| <= |h| && h[k..k + |needle|] == needle
  }

  /** The first occurrence at or after `from`. */
  function StrStr(h: string, needle: string, from: nat): (r: Option<nat>)
    requires from <= |h|
    ensures r.Some? ==> from <= r.value <= |h| && Occurs(h, needle, r.value)
    decreases |h| - from
  {
    if Occurs(h, needle, from) then Some(from)
    else if from == |h| then None
    else StrStr(h, needle, from + 1)
  }

  lemma {:induction false} StrStrIs(h: string, needle: string, from: nat, k: nat)
    requires from <= k <= |h| && Occurs(h, needle, k) && forall j :: from <= j < k ==> !Occurs(h, needle, j)
    ensures StrStr(h, needle, from) == Some(k)
    decreases k - from
  {
    if from < k { StrStrIs(h, needle, from + 1, k); }
  }

  lemma {:induction false} StrStrNone(h: string, needle: string, from: nat)
    requires from <= |h| && forall j :: from <= j <= |h| ==> !Occurs(h, needle, j)
    ensures StrStr(h, needle, from).None?
    decreases |h| - from
  {
    if from < |h| { StrStrNone(h, needle, from + 1); }
  }

  lemma {:induction false} FirstCharDiffers(h: string, needle: string, p: nat)
    requires p < |h| && needle != "" && h[p] != needle[0]
    ensures !Occurs(h, needle, p)
  {
    CharDiffers(h, needle, p, 0);
  }

  lemma {:induction false} CharDiffers(h: string, needle: string, p: nat, m: nat)
    requires m < |needle| && p + m < |h| && h[p + m] != needle[m]
    ensures !Occurs(h, needle, p)
  {
    assert p + |needle| <= |h| ==> h[p..p + |needle|][m] == h[p + m];
  }

  lemma {:induction false} OccursShifted(a: string, x: string, needle: string, k: nat)
    ensures Occurs(a + x, needle, |a| + k) <==> Occurs(x, needle, k)
  {
    assert k + |needle| <= |x| ==> (a + x)[|a| + k..|a| + k + |needle|] == x[k..k + |needle|];
  }

  /** A text in which nothing starts can be left out of the search. */
  lemma {:induction false} SkipFront(a: string, x: string, needle: string, from: nat)
    requires from <= |a| && needle != "" && forall p :: from <= p < |a| ==> !Occurs(a + x, needle, p)
    ensures StrStr(a + x, needle, from) == Moved(StrStr(x, needle, 0), |a|)
    decreases |a| - from
  {
    hide Occurs;
    if from < |a| {
      SkipFront(a, x, needle, from + 1);
    } else {
      SameSearch(a, x, needle, 0);
    }
  }

  function Moved(r: Option<nat>, offset: nat): Option<nat> {
    if r.None? then None else Some(offset + r.value)
  }

  lemma {:induction false} SameSearch(a: string, x: string, needle: string, from: nat)
    requires from <= |x|
    ensures StrStr(a + x, needle, |a| + from) == Moved(StrStr(x, needle, from), |a|)
    decreases |x| - from
  {
    hide Occurs;
    OccursShifted(a, x, needle, from);
    if from < |x| {
      SameSearch(a, x, needle, from + 1);
    }
  }

  lemma {:induction false} StrStrFinds(h: string, needle: string, from: nat, k: nat)
    requires from <= k <= |h| && Occurs(h, needle, k)
    ensures StrStr(h, needle, from).Some?
    decreases k - from
  {
    if from < k && !Occurs(h, needle, from) { StrStrFinds(h, needle, from + 1, k); }
  }
}
