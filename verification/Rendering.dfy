/** Texts written as a bracketed list, and where each item stands in it. */
module Rendering {

  /** Items with commas between them and a bracket behind the last. */
  function Listed(items: seq<string>): string {
    if items == [] then "]"
    else if |items| == 1 then items[0] + "]"
    else items[0] + "," + Listed(items[1..])
  }

  /** Where item i begins. */
  function Offset(items: seq<string>, i: nat): nat
    requires i <= |items|
  {
    if i == 0 then 0 else |items[0]| + 1 + Offset(items[1..], i - 1)
  }

  /** Every item stands at its place, with the separator behind it. */
  predicate StandsAt(text: string, items: seq<string>, i: nat)
    requires i < |items|
  {
    var o, n := Offset(items, i), |items[i]|;
    o + n < |text| && text[o..o + n] == items[i] && text[o + n] == if i + 1 < |items| then ',' else ']'
  }

  lemma {:induction false} ItemAt(items: seq<string>, i: nat)
    requires i < |items|
    ensures StandsAt(Listed(items), items, i)
  {
    if i > 0 {
      var rest := items[1..];
      ItemAt(rest, i - 1);
      Behind(items[0] + ",", Listed(rest), Offset(rest, i - 1), |items[i]|);
    } else if |items| > 1 {
      assert Listed(items) == items[0] + ("," + Listed(items[1..]));
    }
  }

  lemma Behind(front: string, text: string, o: nat, n: nat)
    requires o + n < |text|
    ensures (front + text)[|front| + o..|front| + o + n] == text[o..o + n]
    ensures (front + text)[|front| + o + n] == text[o + n]
  {
  }
}
