/** The structured-log event both serialisers write to, seen as the ordered list of key/value
    pairs added to it. JSON encoding of the event is not modelled. */
module Zerolog {
  import opened Wrappers

  /** An instant on the wall clock; its RFC 3339 rendering is not modelled. */
  datatype Instant = Instant(unixNanos: int)

  /** The typed values an event carries: `event.Str`, `event.Int` and `event.Time`. */
  datatype Value = Str(s: string) | Int(n: int) | Time(t: Instant)

  /** One key/value pair added to an event. */
  datatype Pair = Pair(key: string, value: Value)

  /** A pair that is added only when its value is present: a nil-guarded `event.Str` or `event.Int`. */
  datatype Slot = Slot(key: string, value: Option<Value>)

  /** The value under the first pair with key `k`, if any pair has that key. */
  function Lookup(ps: seq<Pair>, k: string): Option<Value>
  {
    if |ps| == 0 then None
    else if ps[0].key == k then Some(ps[0].value)
    else Lookup(ps[1..], k)
  }

  /** The pairs of the present slots, in slot order. */
  function Present(slots: seq<Slot>): seq<Pair>
  {
    if |slots| == 0 then []
    else
      var head := if slots[0].value.Some? then [Pair(slots[0].key, slots[0].value.value)] else [];
      head + Present(slots[1..])
  }

  /** How many slots hold a value. */
  function CountPresent(slots: seq<Slot>): nat
  {
    if |slots| == 0 then 0
    else (if slots[0].value.Some? then 1 else 0) + CountPresent(slots[1..])
  }

  predicate DistinctKeys(slots: seq<Slot>)
  {
    forall i, j :: 0 <= i < j < |slots| ==> slots[i].key != slots[j].key
  }

  /** No slot uses key `k`. */
  predicate KeyUnused(slots: seq<Slot>, k: string)
  {
    forall i :: 0 <= i < |slots| ==> slots[i].key != k
  }

  /** One step of `Present` seen through `Lookup`: the first slot answers for its own key when it holds
      a value, and every other key is looked up among the remaining slots. */
  lemma PresentUnfold(slots: seq<Slot>)
    requires |slots| > 0
    ensures forall k :: Lookup(Present(slots), k) ==
                          if slots[0].value.Some? && slots[0].key == k then slots[0].value
                          else Lookup(Present(slots[1..]), k)
  {
    var rest := Present(slots[1..]);
    if slots[0].value.Some? {
      var p := Pair(slots[0].key, slots[0].value.value);
      assert Present(slots) == [p] + rest;
      assert ([p] + rest)[1..] == rest;
    } else {
      assert Present(slots) == rest;
    }
  }

  /** Exactly the present slots are emitted. */
  lemma {:induction false} PresentLength(slots: seq<Slot>)
    ensures |Present(slots)| == CountPresent(slots)
  {
    if |slots| > 0 {
      PresentLength(slots[1..]);
    }
  }

  /** A key no slot uses is never emitted. */
  lemma {:induction false} PresentLookupUnused(slots: seq<Slot>, k: string)
    requires KeyUnused(slots, k)
    ensures Lookup(Present(slots), k) == None
  {
    if |slots| > 0 {
      PresentLookupUnused(slots[1..], k);
      PresentUnfold(slots);
    }
  }

  /** With distinct keys, a slot's key is emitted iff the slot holds a value, and it carries that value. */
  lemma {:induction false} PresentLookup(slots: seq<Slot>, j: nat)
    requires DistinctKeys(slots) && j < |slots|
    ensures Lookup(Present(slots), slots[j].key) == slots[j].value
  {
    PresentUnfold(slots);
    if j == 0 {
      PresentLookupUnused(slots[1..], slots[0].key);
    } else {
      PresentLookup(slots[1..], j - 1);
      assert slots[1..][j - 1] == slots[j];
    }
  }

  /** A present slot is emitted at the position given by the number of present slots before it. */
  lemma {:induction false} PresentPosition(slots: seq<Slot>, j: nat)
    requires j < |slots| && slots[j].value.Some?
    ensures CountPresent(slots[..j]) < |Present(slots)|
    ensures Present(slots)[CountPresent(slots[..j])] == Pair(slots[j].key, slots[j].value.value)
  {
    PresentLength(slots);
    if j > 0 {
      PresentPosition(slots[1..], j - 1);
      assert slots[1..][j - 1] == slots[j];
      assert slots[..j][1..] == slots[1..][..j - 1];
      assert slots[..j][0] == slots[0];
    }
  }

  /** Present slots are emitted in slot order: a present slot before another has a smaller position. */
  lemma {:induction false} PresentOrder(slots: seq<Slot>, i: nat, j: nat)
    requires i < j <= |slots| && slots[i].value.Some?
    ensures CountPresent(slots[..i]) < CountPresent(slots[..j])
  {
    if i > 0 {
      PresentOrder(slots[1..], i - 1, j - 1);
      assert slots[1..][i - 1] == slots[i];
      assert slots[..i][1..] == slots[1..][..i - 1];
      assert slots[..j][1..] == slots[1..][..j - 1];
      assert slots[..i][0] == slots[0] && slots[..j][0] == slots[0];
    } else {
      assert slots[..j][0] == slots[0];
    }
  }

  /** A key carried by no pair is not found. */
  lemma {:induction false} LookupMissing(ps: seq<Pair>, k: string)
    requires forall i :: 0 <= i < |ps| ==> ps[i].key != k
    ensures Lookup(ps, k) == None
  {
    if |ps| > 0 {
      LookupMissing(ps[1..], k);
    }
  }

  /** When no slot holds a value nothing is emitted. */
  lemma {:induction false} NoFieldSetNothingPresent(slots: seq<Slot>)
    requires forall i :: 0 <= i < |slots| ==> slots[i].value.None?
    ensures Present(slots) == []
  {
    if |slots| > 0 {
      NoFieldSetNothingPresent(slots[1..]);
    }
  }

  /** Looking a key up in a concatenation searches the front first. */
  lemma {:induction false} LookupAppend(a: seq<Pair>, b: seq<Pair>, k: string)
    ensures Lookup(a + b, k) == if Lookup(a, k).Some? then Lookup(a, k) else Lookup(b, k)
  {
    if |a| > 0 {
      assert (a + b)[0] == a[0];
      assert (a + b)[1..] == a[1..] + b;
      LookupAppend(a[1..], b, k);
    } else {
      assert a + b == b;
    }
  }
}
