/**
 Reading the platform's parameters out of the server's response: the program
 looks for each known name with `strstr` and cuts the value out by position.
 */
module ParameterScanner {
  import opened Wrappers
  import opened Search

  const NAMES := 9
  const VALUE_SIZE := 16

  function Name(i: nat): string
    requires i < NAMES
  {
    match i
    case 0 => "MAX_CPU_POWER"
    case 1 => "MIN_CPU_POWER"
    case 2 => "MEMORY_POWER"
    case 3 => "L2CACHE_MISS_LATENCY"
    case 4 => "L2CACHE_LINE_SIZE"
    case 5 => "E_DISK_R_PER_KB"
    case 6 => "E_DISK_W_PER_KB"
    case 7 => "E_NET_SND_PER_KB"
    case _ => "E_NET_RCV_PER_KB"
  }

  /** The order in which the values are kept and used. */
  lemma NamesAre()
    ensures [Name(0), Name(1), Name(2), Name(3), Name(4), Name(5), Name(6), Name(7), Name(8)]
         == ["MAX_CPU_POWER", "MIN_CPU_POWER", "MEMORY_POWER", "L2CACHE_MISS_LATENCY", "L2CACHE_LINE_SIZE",
             "E_DISK_R_PER_KB", "E_DISK_W_PER_KB", "E_NET_SND_PER_KB", "E_NET_RCV_PER_KB"]
  {
  }

  // ---------- one name ----------

  /** What the scan makes of one name: not there, no end of the value, a value
      too long for the 16-character copy and its NUL, or the value's text. */
  datatype Found = Absent | Endless | Overrun | Value(text: string)

  /** Where the value of the name at `b` ends. */
  function EndOf(h: string, b: nat): Option<nat>
    requires b <= |h|
  {
    if StrStr(h, ",", b).Some? then StrStr(h, ",", b) else StrStr(h, "}", b)
  }

  function Scan(h: string, name: string): Found {
    var b := StrStr(h, name, 0);
    if b.None? then Absent
    else
      var e := EndOf(h, b.value);
      if e.None? then Endless
      else
        var start, length := b.value + 3 + |name|, e.value - b.value - 4 - |name|;
        if 0 <= length < VALUE_SIZE then Value(h[start..start + length]) else Overrun
  }

  predicate Usable(f: Found) {
    f.Absent? || f.Value?
  }

  // ---------- get_config_parameters ----------

  datatype Outcome = Failed | Done | Fault

  /** `response` is the server's answer when the query succeeds, `atof` the text
      conversion. `Fault` stands for a copy that leaves the value buffer or its NUL. */
  method GetConfigParameters(response: Option<string>, atof: string -> real, values: array<real>) returns (r: Outcome)
    requires values.Length == NAMES
    modifies values
    ensures response.None? || StrStr(response.value, "parameters", 0).None? ==> r == Failed && values[..] == old(values[..])
    ensures response.Some? && StrStr(response.value, "parameters", 0).Some? ==>
      var h := response.value;
      r == ScanOutcome(h, 0) && forall i :: 0 <= i < NAMES ==>
        values[i] == if i < FirstBad(h, 0) then NewValue(FoundFor(h, i), atof, old(values[i])) else old(values[i])
  {
    hide StrStr, Name, Scan, FoundFor, FirstBad, NewValue;
    if response.None? {
      return Failed;
    }
    var h := response.value;
    if StrStr(h, "parameters", 0).None? {
      return Failed;
    }
    var i := 0;
    while i < NAMES
      invariant 0 <= i <= NAMES
      invariant FirstBad(h, 0) == FirstBad(h, i) >= i
      invariant forall j :: 0 <= j < i ==> values[j] == NewValue(FoundFor(h, j), atof, old(values[j]))
      invariant forall j :: i <= j < NAMES ==> values[j] == old(values[j])
    {
      var found := FindValue(h, Name(i));
      FirstBadTurn(h, i);
      NewValueIs(found, atof, values[i]);
      match found {
        case Absent =>
        case Endless => return Failed;
        case Overrun => return Fault;
        case Value(text) => values[i] := atof(text);
      }
      i := i + 1;
    }
    return Done;
  }

  /** A slot keeps its value unless the name's value was found. */
  function NewValue(found: Found, atof: string -> real, before: real): real {
    if found.Value? then atof(found.text) else before
  }

  lemma NewValueIs(found: Found, atof: string -> real, before: real)
    ensures NewValue(found, atof, before) == if found.Value? then atof(found.text) else before
  {
  }

  lemma FirstBadTurn(h: string, i: nat)
    requires i < NAMES
    ensures FoundFor(h, i) == Scan(h, Name(i))
    ensures FirstBad(h, i) == if Usable(FoundFor(h, i)) then FirstBad(h, i + 1) else i
  {
  }

  /** The loop body: begin and end pointers, the length between them, the copy. */
  method FindValue(h: string, name: string) returns (found: Found)
    ensures found == Scan(h, name)
  {
    var begin := StrStr(h, name, 0);
    if begin.None? {
      return Absent;
    }
    var end := StrStr(h, ",", begin.value);
    if end.None? {
      end := StrStr(h, "}", begin.value);
      if end.None? {
        return Endless;
      }
    }
    var length := end.value - begin.value - 4 - |name|;
    var start := begin.value + 3 + |name|;
    if !(0 <= length < VALUE_SIZE) {
      return Overrun;
    }
    return Value(h[start..start + length]);
  }

  function FoundFor(h: string, i: nat): Found
    requires i < NAMES
  {
    Scan(h, Name(i))
  }

  /** The first name from i on that stops the scan, or the number of names. */
  function FirstBad(h: string, i: nat): (k: nat)
    requires i <= NAMES
    ensures i <= k <= NAMES
    ensures k < NAMES ==> !Usable(FoundFor(h, k))
    decreases NAMES - i
  {
    if i == NAMES || !Usable(FoundFor(h, i)) then i else FirstBad(h, i + 1)
  }

  function ScanOutcome(h: string, i: nat): Outcome
    requires i <= NAMES
  {
    var k := FirstBad(h, i);
    if k == NAMES then Done else if FoundFor(h, k).Endless? then Failed else Fault
  }

  // ---------- the printer ----------

  datatype Item = Item(key: nat, value: string)

  function ItemText(x: Item): string
    requires x.key < NAMES
  {
    "\"" + Name(x.key) + "\":\"" + x.value + "\""
  }

  function ItemsText(items: seq<Item>): string
    requires forall x :: x in items ==> x.key < NAMES
  {
    if items == [] then "}}"
    else if |items| == 1 then ItemText(items[0]) + "}}"
    else ItemText(items[0]) + "," + ItemsText(items[1..])
  }

  const HEAD := "{\"parameters\":{"

  /** A response whose parameters object holds the items in the given order. */
  function Print(items: seq<Item>): string
    requires forall x :: x in items ==> x.key < NAMES
  {
    HEAD + ItemsText(items)
  }

  predicate Numeric(v: string) {
    forall k :: 0 <= k < |v| ==> '0' <= v[k] <= '9' || v[k] == '.'
  }

  predicate WellFormed(items: seq<Item>) {
    && (forall i :: 0 <= i < |items| ==> items[i].key < NAMES && Numeric(items[i].value))
    && (forall i, j :: 0 <= i < j < |items| ==> items[i].key != items[j].key)
  }

  // ---------- no name occurs inside another ----------

  predicate Letter(c: char) {
    c == 'M' || c == 'L' || c == 'E'
  }

  /** Names start with M, L or E and hold none of the characters around them. */
  lemma {:induction false} NameShape(i: nat)
    requires i < NAMES
    ensures 12 <= |Name(i)| <= 20 && Letter(Name(i)[0])
    ensures i < 2 || i > 2 ==> |Name(i)| >= 13
    ensures i > 4 ==> 15 <= |Name(i)| <= 16
  {
    if i < 4 {
      if i == 0 { } else if i == 1 { } else if i == 2 { } else { }
    } else {
      if i == 4 { } else if i == 5 { } else if i == 6 { } else if i == 7 { } else { }
    }
  }

  predicate KeyText(s: string) {
    forall k :: 0 <= k < |s| ==> s[k] != '"' && s[k] != ',' && s[k] != '}'
  }

  lemma {:induction false} NameText(i: nat)
    requires i < NAMES
    ensures KeyText(Name(i))
  {
    hide Name, KeyText;
    if i < 3 { PowerNameText(i); } else if i < 5 { CacheNameText(i); } else if i < 7 { DiskNameText(i); } else { NetNameText(i); }
  }

  lemma PowerNameText(i: nat)
    requires i < 3
    ensures KeyText(Name(i))
  {
    if i == 0 { } else if i == 1 { } else { }
  }

  lemma CacheNameText(i: nat)
    requires 3 <= i < 5
    ensures KeyText(Name(i))
  {
    if i == 3 { } else { }
  }

  lemma DiskNameText(i: nat)
    requires 5 <= i < 7
    ensures KeyText(Name(i))
  {
    if i == 5 { } else { }
  }

  lemma NetNameText(i: nat)
    requires 7 <= i < NAMES
    ensures KeyText(Name(i))
  {
    if i == 7 { } else { }
  }

  /** The characters that tell the names apart. */
  lemma {:induction false} Signature(i: nat)
    requires i < NAMES
    ensures |Name(i)| > 8
    ensures Name(i)[0] == if i < 3 then 'M' else if i < 5 then 'L' else 'E'
    ensures Name(i)[1] == if i == 0 then 'A' else if i == 1 then 'I' else if i == 2 then 'E' else if i < 5 then '2' else '_'
    ensures i > 4 ==> Name(i)[2] == if i < 7 then 'D' else 'N'
    ensures i == 3 || i == 4 ==> Name(i)[8] == if i == 3 then 'M' else 'L'
    ensures i == 5 || i == 6 ==> Name(i)[7] == if i == 5 then 'R' else 'W'
    ensures i == 7 || i == 8 ==> Name(i)[6] == if i == 7 then 'S' else 'R'
  {
    if i < 4 {
      if i == 0 { } else if i == 1 { } else if i == 2 { } else { }
    } else {
      if i == 4 { } else if i == 5 { } else if i == 6 { } else if i == 7 { } else { }
    }
  }

  /** Letters further inside a name, where another could still fit. */
  lemma {:induction false} InnerLetters(k: nat, d: nat)
    requires k < NAMES && 1 <= d && d + 12 <= |Name(k)| && Letter(Name(k)[d])
    ensures (k == 3 && d == 6) || (k == 3 && d == 8 && Name(k)[9] == 'I') || (k > 6 && d == 3)
    ensures Name(k)[d] == if k == 3 && d == 8 then 'M' else 'E'
    ensures |Name(k)| <= if k == 3 then 20 else 16
  {
    if k < 3 { ShortInnerLetters(k, d); }
    else if k < 5 { CacheInnerLetters(k, d); }
    else { EnergyInnerLetters(k, d); }
    hide Name;
  }

  lemma ShortInnerLetters(k: nat, d: nat)
    requires k < 3 && 1 <= d && d + 12 <= |Name(k)|
    ensures !Letter(Name(k)[d])
  {
    if k == 0 { } else if k == 1 { } else { }
  }

  lemma CacheInnerLetters(k: nat, d: nat)
    requires 3 <= k < 5 && 1 <= d && d + 12 <= |Name(k)| && Letter(Name(k)[d])
    ensures k == 3 && |Name(k)| == 20 && ((d == 6 && Name(k)[d] == 'E') || (d == 8 && Name(k)[8] == 'M' && Name(k)[9] == 'I'))
  {
    if k == 3 { } else { }
  }

  lemma EnergyInnerLetters(k: nat, d: nat)
    requires 5 <= k < NAMES && 1 <= d && d + 12 <= |Name(k)| && Letter(Name(k)[d])
    ensures k > 6 && d == 3 && Name(k)[d] == 'E' && |Name(k)| == 16
  {
    if k == 5 { } else if k == 6 { } else if k == 7 { } else { }
  }

  /** No name occurs inside another one. */
  lemma {:induction false} NamesApart(i: nat, k: nat, d: nat)
    requires i < NAMES && k < NAMES && i != k && d + |Name(i)| <= |Name(k)|
    ensures exists m :: 0 <= m < |Name(i)| && Name(k)[d + m] != Name(i)[m]
  {
    hide Name;
    if d > 0 {
      NotFurtherIn(i, k, d);
    } else {
      NotInFront(i, k);
    }
  }

  lemma {:induction false} NotInFront(i: nat, k: nat)
    requires i < NAMES && k < NAMES && i != k && |Name(i)| <= |Name(k)|
    ensures exists m :: 0 <= m < |Name(i)| && Name(k)[0 + m] != Name(i)[m]
  {
    Signature(i);
    Signature(k);
    hide Name;
    var m := if Name(i)[0] != Name(k)[0] then 0
             else if i < 3 then 1
             else if i < 5 then 8
             else if (i < 7) != (k < 7) then 2
             else if i < 7 then 7 else 6;
    assert Name(k)[0 + m] != Name(i)[m];
  }

  lemma {:induction false} NotFurtherIn(i: nat, k: nat, d: nat)
    requires i < NAMES && k < NAMES && i != k && 0 < d && d + |Name(i)| <= |Name(k)|
    ensures exists m :: 0 <= m < |Name(i)| && Name(k)[d + m] != Name(i)[m]
  {
    Signature(i);
    NameShape(i);
    hide Name;
    var m := if Letter(Name(k)[d]) && k == 3 && d == 8 && i == 2 then 1 else 0;
    if Letter(Name(k)[d]) {
      InnerLetters(k, d);
    }
    assert Name(k)[d + m] != Name(i)[m];
  }

  // ---------- the scan of a printed response ----------

  /** So the scan of a name gives the same with or without such a text in front. */
  lemma {:induction false} ScanSkips(a: string, x: string, name: string)
    requires name != "" && forall p :: 0 <= p < |a| ==> !Occurs(a + x, name, p)
    ensures Scan(a + x, name) == Scan(x, name)
  {
    hide StrStr, Occurs, EndOf;
    SkipFront(a, x, name, 0);
    var b := StrStr(x, name, 0);
    if b.Some? {
      EndSkips(a, x, b.value);
      var e := EndOf(x, b.value);
      if e.Some? {
      }
    }
  }

  lemma {:induction false} EndSkips(a: string, x: string, b: nat)
    requires b <= |x|
    ensures EndOf(a + x, |a| + b) == Moved(EndOf(x, b), |a|)
    ensures EndOf(x, b).Some? ==> EndOf(x, b).value < |x|
  {
    hide StrStr;
    SameSearch(a, x, ",", b);
    SameSearch(a, x, "}", b);
  }

  /** Inside an item only its own name starts, right after the first quote. */
  lemma {:induction false} NothingInItem(x: Item, i: nat, h: string, p: nat)
    requires x.key < NAMES && i < NAMES && Numeric(x.value)
    requires |ItemText(x)| <= |h| && h[..|ItemText(x)|] == ItemText(x)
    requires p < |ItemText(x)| && (p == 1 ==> i != x.key)
    ensures !Occurs(h, Name(i), p)
  {
    hide Name, ItemText;
    var k, t := Name(x.key), ItemText(x);
    ItemChars(x);
    NameShape(i);
    NameText(i);
    assert forall j :: 0 <= j < |t| ==> h[j] == t[j];
    if p == 0 || p > |k| {
      FirstCharDiffers(h, Name(i), p);
    } else if p - 1 + |Name(i)| > |k| {
      CharDiffers(h, Name(i), p, |k| + 1 - p);
    } else {
      NothingInName(i, x.key, p - 1, h, p);
    }
  }

  lemma {:induction false} NothingInName(i: nat, key: nat, d: nat, h: string, p: nat)
    requires i < NAMES && key < NAMES && d + |Name(i)| <= |Name(key)| && (d == 0 ==> i != key)
    requires p + |Name(i)| <= |h| && forall j :: d <= j < |Name(key)| && p - d + j < |h| ==> h[p - d + j] == Name(key)[j]
    ensures !Occurs(h, Name(i), p)
  {
    hide Name;
    NamesApart(i, key, d);
    var m :| 0 <= m < |Name(i)| && Name(key)[d + m] != Name(i)[m];
    assert h[p - d + (d + m)] == Name(key)[d + m];
    CharDiffers(h, Name(i), p, m);
  }

  lemma {:induction false} ItemChars(x: Item)
    requires x.key < NAMES && Numeric(x.value)
    ensures var k, t := Name(x.key), ItemText(x);
      |t| == |k| + |x.value| + 5 && t[0] == '"' && t[|k| + 1] == '"'
      && (forall j :: 0 <= j < |k| ==> t[j + 1] == k[j])
      && (forall j :: |k| < j < |t| ==> !Letter(t[j]) && t[j] != ',' && t[j] != '}')
      && t[|k| + 4..|t| - 1] == x.value
  {
    hide Name;
    var k, t := Name(x.key), ItemText(x);
    assert t == "\"" + (k + ("\":\"" + (x.value + "\"")));
    forall j | |k| < j < |t| ensures !Letter(t[j]) && t[j] != ',' && t[j] != '}' {
      if |k| + 4 <= j < |t| - 1 { assert t[j] == x.value[j - |k| - 4]; }
    }
  }

  function ValueFor(items: seq<Item>, i: nat): Option<string> {
    if items == [] then None
    else if items[0].key == i then Some(items[0].value)
    else ValueFor(items[1..], i)
  }

  /** What the scan should make of it. */
  function Expected(v: Option<string>): Found {
    if v.None? then Absent else if |v.value| < VALUE_SIZE then Value(v.value) else Overrun
  }

  lemma {:induction false} NoNameInEnd(i: nat)
    requires i < NAMES
    ensures Scan("}}", Name(i)) == Absent
  {
    NameShape(i);
    hide Name;
    StrStrNone("}}", Name(i), 0);
  }

  /** The item found: its value lies between the quotes before the next ',' or '}'. */
  lemma {:induction false} ItemFound(x: Item, tail: string)
    requires x.key < NAMES && Numeric(x.value) && tail != ""
    requires tail[0] == ',' || (tail[0] == '}' && forall j :: 0 <= j < |tail| ==> tail[j] != ',')
    ensures Scan(ItemText(x) + tail, Name(x.key)) == Expected(Some(x.value))
  {
    hide Name, ItemText, StrStr, EndOf;
    var k, t := Name(x.key), ItemText(x);
    var h := t + tail;
    NameStarts(x, tail);
    ItemChars(x);
    ItemHasNoEnd(x);
    EndFound(t, tail, 1);
    assert h[|k| + 4..|t| - 1] == t[|k| + 4..|t| - 1];
  }

  lemma {:induction false} NameStarts(x: Item, tail: string)
    requires x.key < NAMES && Numeric(x.value) && tail != ""
    ensures StrStr(ItemText(x) + tail, Name(x.key), 0) == Some(1)
  {
    hide Name, ItemText, StrStr;
    var k, h := Name(x.key), ItemText(x) + tail;
    ItemChars(x);
    NameShape(x.key);
    assert h[..|ItemText(x)|] == ItemText(x);
    NothingInItem(x, x.key, h, 0);
    assert h[1..1 + |k|] == k;
    StrStrIs(h, k, 0, 1);
  }

  lemma {:induction false} ItemHasNoEnd(x: Item)
    requires x.key < NAMES && Numeric(x.value)
    ensures forall j :: 0 <= j < |ItemText(x)| ==> ItemText(x)[j] != ',' && ItemText(x)[j] != '}'
  {
    hide Name, ItemText;
    ItemChars(x);
    NameText(x.key);
    forall j | 0 < j <= |Name(x.key)| ensures ItemText(x)[j] != ',' && ItemText(x)[j] != '}' {
      assert ItemText(x)[(j - 1) + 1] == Name(x.key)[j - 1];
    }
  }

  lemma {:induction false} EndFound(t: string, tail: string, b: nat)
    requires b <= |t| && tail != "" && forall j :: 0 <= j < |t| ==> t[j] != ',' && t[j] != '}'
    requires tail[0] == ',' || (tail[0] == '}' && forall j :: 0 <= j < |tail| ==> tail[j] != ',')
    ensures EndOf(t + tail, b) == Some(|t|)
  {
    hide StrStr;
    var h := t + tail;
    forall j | b <= j <= |h| && (j < |t| || tail[0] == '}') ensures !Occurs(h, ",", j) {
      if j < |h| { FirstCharDiffers(h, ",", j); }
    }
    forall j | b <= j < |t| ensures !Occurs(h, "}", j) {
      FirstCharDiffers(h, "}", j);
    }
    if tail[0] == ',' {
      assert Occurs(h, ",", |t|);
      StrStrIs(h, ",", b, |t|);
    } else {
      StrStrNone(h, ",", b);
      assert Occurs(h, "}", |t|);
      StrStrIs(h, "}", b, |t|);
    }
  }

  /** A name not looked for is skipped with its item. */
  lemma {:induction false} ItemSkipped(x: Item, sep: string, rest: string, i: nat)
    requires x.key < NAMES && i < NAMES && x.key != i && Numeric(x.value) && (sep == "" || sep == ",")
    ensures Scan(ItemText(x) + sep + rest, Name(i)) == Scan(rest, Name(i))
  {
    NameShape(i);
    hide Name, ItemText, StrStr;
    var a := ItemText(x) + sep;
    var h := a + rest;
    forall p | 0 <= p < |a| ensures !Occurs(h, Name(i), p) {
      if p < |ItemText(x)| {
        assert h[..|ItemText(x)|] == ItemText(x);
        NothingInItem(x, i, h, p);
      } else {
        FirstCharDiffers(h, Name(i), p);
      }
    }
    ScanSkips(a, rest, Name(i));
  }

  lemma {:induction false} ScanItems(items: seq<Item>, i: nat)
    requires WellFormed(items) && i < NAMES
    ensures Scan(ItemsText(items), Name(i)) == Expected(ValueFor(items, i))
    decreases |items|
  {
    hide Name, ItemText, Scan;
    if items == [] {
      NoNameInEnd(i);
    } else {
      var x, rest := items[0], items[1..];
      assert WellFormed(rest);
      if x.key == i {
        ItemFound(x, if rest == [] then "}}" else "," + ItemsText(rest));
        assert rest != [] ==> ItemText(x) + "," + ItemsText(rest) == ItemText(x) + ("," + ItemsText(rest));
      } else {
        ScanItems(rest, i);
        ItemSkipped(x, if rest == [] then "" else ",", ItemsText(rest), i);
        assert ItemText(x) + "" == ItemText(x);
      }
    }
  }

  lemma {:induction false} HeadSkipped(x: string, i: nat)
    requires i < NAMES
    ensures Scan(HEAD + x, Name(i)) == Scan(x, Name(i))
  {
    NameShape(i);
    hide Name, StrStr, HEAD, Scan, Occurs;
    var h := HEAD + x;
    forall p | 0 <= p < |HEAD| ensures !Occurs(h, Name(i), p) {
      assert h[p] == HEAD[p];
      FirstCharDiffers(h, Name(i), p);
    }
    ScanSkips(HEAD, x, Name(i));
  }

  lemma {:induction false} ParametersFound(x: string)
    ensures StrStr(HEAD + x, "parameters", 0).Some?
  {
    ParametersInHead();
    hide StrStr, HEAD;
    var h := HEAD + x;
    assert h[2..12] == HEAD[2..12];
    StrStrFinds(h, "parameters", 0, 2);
  }

  lemma {:induction false} ParametersInHead()
    ensures |HEAD| >= 12 && HEAD[2..12] == "parameters"
  {
  }

  /** The scan inverts the printer: in a printed response, with the items in any
      order and any of them missing, each name's value is found as printed. */
  lemma {:induction false} ScanInvertsPrint(items: seq<Item>, i: nat)
    requires WellFormed(items) && i < NAMES
    ensures FoundFor(Print(items), i) == Expected(ValueFor(items, i))
    ensures StrStr(Print(items), "parameters", 0).Some?
  {
    hide Name, StrStr, Scan, ItemsText;
    HeadSkipped(ItemsText(items), i);
    ParametersFound(ItemsText(items));
    ScanItems(items, i);
  }

  lemma {:induction false} ValueForItems(items: seq<Item>, i: nat)
    requires WellFormed(items)
    ensures ValueFor(items, i).Some? <==> exists j :: 0 <= j < |items| && items[j].key == i
    ensures forall j :: 0 <= j < |items| && items[j].key == i ==> ValueFor(items, i) == Some(items[j].value)
  {
    if items != [] {
      assert WellFormed(items[1..]);
      ValueForItems(items[1..], i);
      assert forall j :: 0 < j < |items| ==> items[j] == items[1..][j - 1];
    }
  }

  /** The whole scan succeeds if and only if every printed value has at most 15 characters. */
  lemma {:induction false} ScanSucceedsIff(items: seq<Item>)
    requires WellFormed(items)
    ensures ScanOutcome(Print(items), 0) == Done <==> forall j :: 0 <= j < |items| ==> |items[j].value| <= 15
  {
    hide Name, StrStr, Scan, ItemsText, FirstBad, Print, FoundFor, ValueFor;
    var h := Print(items);
    forall i | 0 <= i < NAMES ensures FoundFor(h, i) == Expected(ValueFor(items, i)) { ScanInvertsPrint(items, i); }
    AllUsable(h, 0);
    if forall j :: 0 <= j < |items| ==> |items[j].value| < VALUE_SIZE {
      forall i | 0 <= i < NAMES ensures Usable(FoundFor(h, i)) {
        ValueForItems(items, i);
        if ValueFor(items, i).Some? {
          var j :| 0 <= j < |items| && items[j].key == i;
        }
      }
    } else {
      var j :| 0 <= j < |items| && |items[j].value| >= VALUE_SIZE;
      ValueForItems(items, items[j].key);
      assert !Usable(FoundFor(h, items[j].key));
    }
  }

  lemma {:induction false} AllUsable(h: string, i: nat)
    requires i <= NAMES
    ensures FirstBad(h, i) == NAMES <==> forall k :: i <= k < NAMES ==> Usable(FoundFor(h, k))
    decreases NAMES - i
  {
    hide FoundFor, Usable;
    if i < NAMES { AllUsable(h, i + 1); }
  }

  /** A value of sixteen characters already leaves no room for the NUL behind it. */
  lemma {:induction false} SixteenCharacters(v: string)
    requires |v| == 16 && Numeric(v)
    ensures ScanOutcome(Print([Item(0, v)]), 0) == Fault
  {
    hide Name, StrStr, Scan, ItemsText, Print, FoundFor, ValueFor;
    var items := [Item(0, v)];
    ScanInvertsPrint(items, 0);
    ValueForItems(items, 0);
    assert items[0].key == 0;
  }
}
