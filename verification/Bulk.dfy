/**
 The sampling thread of one plugin: it collects hook results in a text buffer
 and publishes a bulk of them at a time.
 */
module Bulk {
  import opened CString
  import opened Wrappers
  import Rendering

  const JSON_LEN := 1024

  /** One turn of the sampling loop: what the hook returned, and whether the sleep
      after it was cut short. */
  datatype Tick = Tick(json: Option<string>, interrupted: bool)

  type Ticks = nat -> Tick

  // ---------- the specification ----------

  /** Turns taken by one bulk: all of them, or up to the first interrupted sleep. */
  function RoundLength(tick: Ticks, t: nat, bulk: nat): (n: nat)
    ensures n <= bulk && (bulk > 0 ==> n > 0)
    decreases bulk
  {
    if bulk == 0 then 0
    else if tick(t).interrupted then 1
    else 1 + RoundLength(tick, t + 1, bulk - 1)
  }

  /** A bulk ends early exactly at its first interrupted sleep. */
  lemma {:induction false} RoundEnds(tick: Ticks, t: nat, bulk: nat)
    ensures var n := RoundLength(tick, t, bulk);
            (n < bulk ==> n > 0 && tick(t + n - 1).interrupted)
            && forall k :: t <= k < t + n - 1 ==> !tick(k).interrupted
    decreases bulk
  {
    if bulk > 0 && !tick(t).interrupted {
      RoundEnds(tick, t + 1, bulk - 1);
    }
  }

  /** The objects published for n turns from t on; a NULL result gives none. */
  function Objects(tick: Ticks, fixed: string, t: nat, n: nat): (objs: seq<string>)
    ensures |objs| <= n
  {
    if n == 0 then []
    else Objects(tick, fixed, t, n - 1) + Result(tick(t + n - 1), fixed)
  }

  function Result(tick: Tick, fixed: string): seq<string> {
    if tick.json.Some? then [fixed + tick.json.value + "}"] else []
  }

  /** Objects separated by commas. */
  function Commas(objs: seq<string>): string {
    if objs == [] then ""
    else if |objs| == 1 then objs[0]
    else objs[0] + "," + Commas(objs[1..])
  }

  /** A JSON array of the bulk's objects; a bulk without any publishes a lone "]". */
  function Message(objs: seq<string>): string {
    if objs == [] then "]" else "[" + Commas(objs) + "]"
  }

  /** The bulks of a whole run. */
  function Bulks(tick: Ticks, fixed: string, bulk: nat, t: nat, rounds: nat): (r: seq<seq<string>>)
    ensures |r| == rounds
    decreases rounds
  {
    if rounds == 0 then []
    else
      var n := RoundLength(tick, t, bulk);
      [Objects(tick, fixed, t, n)] + Bulks(tick, fixed, bulk, t + n, rounds - 1)
  }

  function TurnsTaken(tick: Ticks, bulk: nat, t: nat, rounds: nat): nat
    decreases rounds
  {
    if rounds == 0 then 0
    else
      var n := RoundLength(tick, t, bulk);
      n + TurnsTaken(tick, bulk, t + n, rounds - 1)
  }

  function Messages(bulks: seq<seq<string>>): seq<string> {
    seq(|bulks|, i requires 0 <= i < |bulks| => Message(bulks[i]))
  }

  /** What the buffers demand: a message of this length fits its own buffer, and
      `bulk` of them fit the array buffer. */
  predicate RoomFor(width: nat, bulk: nat) {
    width < JSON_LEN && 1 + bulk * width < JSON_LEN * bulk
  }

  predicate Fits(tick: Tick, fixed: string, bulk: nat) {
    tick.json.Some? ==> NoNul(tick.json.value) && RoomFor(|fixed| + |tick.json.value| + 2, bulk)
  }

  lemma {:induction false} RoomIs(width: nat, bulk: nat)
    requires bulk >= 1
    ensures RoomFor(width, bulk) <==> width <= Cap(bulk)
    ensures Cap(bulk) == if bulk == 1 then 1022 else 1023
  {
    if width < JSON_LEN {
      assert bulk * width == bulk * JSON_LEN - bulk * (JSON_LEN - width);
      if width == JSON_LEN - 1 {
        assert bulk * (JSON_LEN - width) == bulk;
      } else {
      }
    }
  }

  // ---------- the thread ----------

  /** Text collected so far: every object followed by a comma. */
  function Trailing(objs: seq<string>): string {
    if objs == [] then "" else Trailing(objs[..|objs| - 1]) + (objs[|objs| - 1] + ",")
  }

  method FillBulk(b: array<char>, fixed: string, bulk: nat, tick: Ticks, t: nat) returns (next: nat)
    requires bulk >= 1 && b.Length == JSON_LEN * bulk && NoNul(fixed)
    requires forall k: nat :: Fits(tick(k), fixed, bulk)
    requires Terminated(b[..], 0) && Text(b[..], 0) == "["
    modifies b
    ensures next == t + RoundLength(tick, t, bulk)
    ensures Terminated(b[..], 0) && Text(b[..], 0) == "[" + Trailing(Objects(tick, fixed, t, next - t))
  {
    hide NulAt, Objects, Trailing, Fits, RoundLength;
    next := t;
    var i := 0;
    ghost var cap := Cap(bulk);
    NothingYet(tick, fixed, t, bulk);
    while i < bulk
      invariant 0 <= i <= bulk && next == t + i
      invariant i + RoundLength(tick, next, bulk - i) == RoundLength(tick, t, bulk)
      invariant Terminated(b[..], 0) && Text(b[..], 0) == "[" + Trailing(Objects(tick, fixed, t, i))
      invariant |Text(b[..], 0)| <= 1 + i * cap
    {
      var now := tick(next);
      var msg := if now.json.Some? then fixed + now.json.value + "}," else "";
      MessageFits(now, fixed, bulk, msg);
      TrailingGrows(tick, fixed, t, i, msg);
      RoundTurn(tick, next, bulk - i);
      if now.json.Some? {
        Append(b, msg);
      }
      next := next + 1;
      i := i + 1;
      if now.interrupted {
        break;
      }
    }
  }

  /** Longest message the buffers allow. */
  function Cap(bulk: nat): nat {
    if bulk == 1 then JSON_LEN - 2 else JSON_LEN - 1
  }

  lemma MessageFits(tick: Tick, fixed: string, bulk: nat, msg: string)
    requires bulk >= 1 && Fits(tick, fixed, bulk) && NoNul(fixed)
    requires msg == if tick.json.Some? then fixed + tick.json.value + "}," else ""
    ensures |msg| <= Cap(bulk) && NoNul(msg)
  {
    RoomIs(|msg|, bulk);
  }

  lemma NothingYet(tick: Ticks, fixed: string, t: nat, bulk: nat)
    ensures "[" + Trailing(Objects(tick, fixed, t, 0)) == "["
  {
  }

  lemma RoundTurn(tick: Ticks, t: nat, left: nat)
    requires left > 0
    ensures RoundLength(tick, t, left) == 1 + if tick(t).interrupted then 0 else RoundLength(tick, t + 1, left - 1)
  {
  }

  lemma {:induction false} TrailingGrows(tick: Ticks, fixed: string, t: nat, i: nat, msg: string)
    requires msg == if tick(t + i).json.Some? then fixed + tick(t + i).json.value + "}," else ""
    ensures "[" + Trailing(Objects(tick, fixed, t, i + 1)) == "[" + Trailing(Objects(tick, fixed, t, i)) + msg
  {
    var objs := Objects(tick, fixed, t, i);
    if tick(t + i).json.Some? {
      var x := fixed + tick(t + i).json.value + "}";
      assert (objs + [x])[..|objs|] == objs;
      assert x + "," == msg;
    } else {
      assert objs + [] == objs;
    }
  }

  /** `json_array[strlen - 1] = ']'`: the last comma, or the bracket itself. */
  method CloseBulk(b: array<char>, ghost objs: seq<string>)
    requires Terminated(b[..], 0) && Text(b[..], 0) == "[" + Trailing(objs)
    modifies b
    ensures Terminated(b[..], 0) && Text(b[..], 0) == Message(objs)
  {
    ghost var text := Text(b[..], 0);
    var n := StrLen(b, 0);
    NoNulBefore(b[..], 0);
    assert forall k :: 0 <= k < n ==> b[k] == text[k];
    b[n - 1] := ']';
    NulIs(b[..], 0, n);
    assert Text(b[..], 0) == text[..n - 1] + "]";
    LastComma(objs);
  }

  lemma {:induction false} LastComma(objs: seq<string>)
    ensures var text := "[" + Trailing(objs); text[..|text| - 1] + "]" == Message(objs)
  {
    if objs != [] {
      TrailingIsCommas(objs);
    }
  }

  lemma {:induction false} TrailingIsCommas(objs: seq<string>)
    requires objs != []
    ensures Trailing(objs) == Commas(objs) + ","
  {
    if |objs| == 1 {
      assert objs[..0] == [];
    } else {
      var init, x := objs[..|objs| - 1], objs[|objs| - 1];
      TrailingIsCommas(init);
      CommasGrow(init, x);
      assert init + [x] == objs;
    }
  }

  lemma {:induction false} CommasGrow(objs: seq<string>, x: string)
    requires objs != []
    ensures Commas(objs + [x]) == Commas(objs) + "," + x
  {
    if |objs| > 1 {
      CommasGrow(objs[1..], x);
      assert (objs + [x])[1..] == objs[1..] + [x];
    }
  }

  method ClearBulk(b: array<char>)
    requires b.Length > 1
    modifies b
    ensures Terminated(b[..], 0) && Text(b[..], 0) == "["
  {
    Clear(b);
    b[0] := '[';
    b[1] := NUL;
    NulIs(b[..], 0, 1);
  }

  /** The thread from its first to its last look at `running`, which it finds set
      `rounds` times. */
  method GatherMetric(fixed: string, bulk: nat, tick: Ticks, rounds: nat) returns (published: seq<string>)
    requires bulk >= 1 && NoNul(fixed)
    requires forall k: nat :: Fits(tick(k), fixed, bulk)
    ensures published == Messages(Bulks(tick, fixed, bulk, 0, rounds))
  {
    hide NulAt, RoundLength, Objects, Bulks, Messages, Message, Fits;
    var b := new char[JSON_LEN * bulk];
    ClearBulk(b);
    published := [];
    var r, t := 0, 0;
    ghost var all := Messages(Bulks(tick, fixed, bulk, 0, rounds));
    while r < rounds
      invariant 0 <= r <= rounds
      invariant all == published + Messages(Bulks(tick, fixed, bulk, t, rounds - r))
      invariant Terminated(b[..], 0) && Text(b[..], 0) == "["
    {
      var next := FillBulk(b, fixed, bulk, tick, t);
      ghost var objs := Objects(tick, fixed, t, next - t);
      NextMessage(tick, fixed, bulk, t, rounds - r);
      CloseBulk(b, objs);
      published := published + [Text(b[..], 0)];
      ClearBulk(b);
      t := next;
      r := r + 1;
    }
    NoMessages(tick, fixed, bulk, t);
  }

  lemma NextMessage(tick: Ticks, fixed: string, bulk: nat, t: nat, rounds: nat)
    requires rounds > 0
    ensures var n := RoundLength(tick, t, bulk);
            Messages(Bulks(tick, fixed, bulk, t, rounds))
            == [Message(Objects(tick, fixed, t, n))] + Messages(Bulks(tick, fixed, bulk, t + n, rounds - 1))
  {
  }

  lemma NoMessages(tick: Ticks, fixed: string, bulk: nat, t: nat)
    ensures Messages(Bulks(tick, fixed, bulk, t, 0)) == []
  {
  }

  // ---------- conservation ----------

  function Flatten(bulks: seq<seq<string>>): seq<string> {
    if bulks == [] then [] else bulks[0] + Flatten(bulks[1..])
  }

  lemma {:induction false} ObjectsSplit(tick: Ticks, fixed: string, t: nat, m: nat, n: nat)
    ensures Objects(tick, fixed, t, m + n) == Objects(tick, fixed, t, m) + Objects(tick, fixed, t + m, n)
    decreases n
  {
    if n == 0 {
      assert Objects(tick, fixed, t, m) + [] == Objects(tick, fixed, t, m);
    } else {
      ObjectsSplit(tick, fixed, t, m, n - 1);
    }
  }

  /** Results among the first n turns from t on. */
  function Results(tick: Ticks, t: nat, n: nat): nat {
    if n == 0 then 0 else Results(tick, t, n - 1) + if tick(t + n - 1).json.Some? then 1 else 0
  }

  /** The objects of a bulk are its turns' results in order, each behind the fixed
      text and closed by a brace. */
  lemma {:induction false} ObjectOf(tick: Ticks, fixed: string, t: nat, n: nat, k: nat)
    ensures |Objects(tick, fixed, t, n)| == Results(tick, t, n)
    ensures k < n && tick(t + k).json.Some? ==>
              Results(tick, t, k) < Results(tick, t, n)
              && Objects(tick, fixed, t, n)[Results(tick, t, k)] == fixed + tick(t + k).json.value + "}"
  {
    if n > 0 {
      ObjectOf(tick, fixed, t, n - 1, k);
    }
  }

  lemma {:induction false} MessageIsListed(objs: seq<string>)
    requires objs != []
    ensures Message(objs) == "[" + Rendering.Listed(objs)
  {
    CommasAreListed(objs);
    assert Message(objs) == "[" + (Commas(objs) + "]");
  }

  lemma {:induction false} CommasAreListed(objs: seq<string>)
    requires objs != []
    ensures Commas(objs) + "]" == Rendering.Listed(objs)
  {
    if |objs| > 1 {
      CommasAreListed(objs[1..]);
      assert Commas(objs) + "]" == objs[0] + "," + (Commas(objs[1..]) + "]");
    }
  }

  /** So the result of turn k of round r stands in message r of a run, at its place. */
  lemma {:induction false} ResultInMessage(tick: Ticks, fixed: string, bulk: nat, rounds: nat, r: nat, k: nat)
    requires r < rounds
    requires k < RoundLength(tick, TurnsTaken(tick, bulk, 0, r), bulk) && tick(TurnsTaken(tick, bulk, 0, r) + k).json.Some?
    ensures var u := TurnsTaken(tick, bulk, 0, r);
            var message, objs := Messages(Bulks(tick, fixed, bulk, 0, rounds))[r], Bulks(tick, fixed, bulk, 0, rounds)[r];
            var i := Results(tick, u, k);
            message != "" && message[0] == '[' && i < |objs| && objs[i] == fixed + tick(u + k).json.value + "}"
            && Rendering.StandsAt(message[1..], objs, i)
  {
    hide Objects, RoundLength, TurnsTaken, Bulks, Message, Results;
    var u := TurnsTaken(tick, bulk, 0, r);
    var n := RoundLength(tick, u, bulk);
    var objs := Objects(tick, fixed, u, n);
    BulkAt(tick, fixed, bulk, 0, rounds, r);
    ObjectOf(tick, fixed, u, n, k);
    MessageIsListed(objs);
    Rendering.ItemAt(objs, Results(tick, u, k));
    assert Message(objs)[1..] == Rendering.Listed(objs);
  }

  /** Every result of the run is in exactly one bulk, in the order of the turns. */
  lemma {:induction false} NothingLost(tick: Ticks, fixed: string, bulk: nat, t: nat, rounds: nat)
    ensures Flatten(Bulks(tick, fixed, bulk, t, rounds)) == Objects(tick, fixed, t, TurnsTaken(tick, bulk, t, rounds))
    decreases rounds
  {
    hide Objects, RoundLength;
    if rounds == 0 {
      assert Objects(tick, fixed, t, 0) == [] by { NoObjects(tick, fixed, t); }
    } else {
      var n := RoundLength(tick, t, bulk);
      NothingLost(tick, fixed, bulk, t + n, rounds - 1);
      ObjectsSplit(tick, fixed, t, n, TurnsTaken(tick, bulk, t + n, rounds - 1));
      var rest := Bulks(tick, fixed, bulk, t + n, rounds - 1);
      assert Bulks(tick, fixed, bulk, t, rounds)[1..] == rest;
    }
  }

  lemma NoObjects(tick: Ticks, fixed: string, t: nat)
    ensures Objects(tick, fixed, t, 0) == []
  {
  }

  /** No bulk is larger than the configured size. */
  lemma {:induction false} BulksAreBounded(tick: Ticks, fixed: string, bulk: nat, t: nat, rounds: nat)
    ensures forall i :: 0 <= i < rounds ==> |Bulks(tick, fixed, bulk, t, rounds)[i]| <= bulk
    decreases rounds
  {
    if rounds > 0 {
      BulksAreBounded(tick, fixed, bulk, t + RoundLength(tick, t, bulk), rounds - 1);
    }
  }

  /** Bulk r takes its turns where the earlier ones stopped. */
  lemma {:induction false} BulkAt(tick: Ticks, fixed: string, bulk: nat, t: nat, rounds: nat, r: nat)
    requires r < rounds
    ensures var u := t + TurnsTaken(tick, bulk, t, r);
            Bulks(tick, fixed, bulk, t, rounds)[r] == Objects(tick, fixed, u, RoundLength(tick, u, bulk))
    decreases rounds
  {
    hide Objects, RoundLength;
    if r > 0 {
      BulkAt(tick, fixed, bulk, t + RoundLength(tick, t, bulk), rounds - 1, r - 1);
    }
  }

  /** Turns without an object are those whose hook call returned NULL. */
  lemma {:induction false} NoObjectsIff(tick: Ticks, fixed: string, t: nat, n: nat)
    ensures Objects(tick, fixed, t, n) == [] <==> forall k :: t <= k < t + n ==> tick(k).json.None?
  {
    if n > 0 {
      NoObjectsIff(tick, fixed, t, n - 1);
    }
  }

  /** Message r of a run is a lone "]" if and only if every hook call of its round
      returned NULL; otherwise it opens as an array. */
  lemma {:induction false} EmptyBulkIsNoArray(tick: Ticks, fixed: string, bulk: nat, rounds: nat, r: nat)
    requires r < rounds
    ensures var u := TurnsTaken(tick, bulk, 0, r);
            var silent := forall k :: u <= k < u + RoundLength(tick, u, bulk) ==> tick(k).json.None?;
            var message := Messages(Bulks(tick, fixed, bulk, 0, rounds))[r];
            (message == "]" <==> silent) && (message != "" && message[0] == '[' <==> !silent)
  {
    hide Objects, RoundLength, TurnsTaken, Bulks;
    var u := TurnsTaken(tick, bulk, 0, r);
    BulkAt(tick, fixed, bulk, 0, rounds, r);
    NoObjectsIff(tick, fixed, u, RoundLength(tick, u, bulk));
  }

  /** A plugin that never has a result publishes nothing but brackets. */
  lemma {:induction false} SilentPlugin(fixed: string, bulk: nat, rounds: nat)
    ensures Messages(Bulks(_ => Tick(None, false), fixed, bulk, 0, rounds)) == seq(rounds, _ => "]")
  {
    hide Bulks, RoundLength, TurnsTaken, Message;
    var tick := _ => Tick(None, false);
    forall r | 0 <= r < rounds ensures Messages(Bulks(tick, fixed, bulk, 0, rounds))[r] == "]" {
      EmptyBulkIsNoArray(tick, fixed, bulk, rounds, r);
    }
  }
}
