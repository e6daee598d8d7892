/** The dashboard's counting idiom as JavaScript evaluates it: `counts[key] = (counts[key]
    || 0) + 1` on an object literal `{}`, whose reads fall through to `Object.prototype`.
    For ordinary keys it agrees with `Dashboard.Histogram`; for the names `Object.prototype`
    already carries it does not count at all. */
module ObjectCounts {

  import opened Seqs
  import D = Dashboard

  /** The property names an object literal inherits from `Object.prototype`. `__proto__` is
      an accessor; every other one is a writable method. */
  const INHERITED: set<string> := {
    "constructor", "hasOwnProperty", "isPrototypeOf", "propertyIsEnumerable",
    "toLocaleString", "toString", "valueOf", "__defineGetter__", "__defineSetter__",
    "__lookupGetter__", "__lookupSetter__", "__proto__"}

  const PROTO: string := "__proto__"

  /** What an own property of the counting object holds: a number, or a string once `+ 1`
      has concatenated onto a function's source text. */
  datatype Value = Num(n: nat) | Str(s: string)

  /** An own property of the counting object, as `Object.entries` lists it. */
  datatype Entry = Entry(name: string, value: Value)

  /** `String(f)` for the inherited method `key`; `constructor` is the function `Object`. */
  function NativeSource(key: string): string
  {
    "function " + (if key == "constructor" then "Object" else key) + "() { [native code] }"
  }

  /** Position of the own property `key`, or `|h|` when there is none. */
  function FindEntry(h: seq<Entry>, key: string): (k: nat)
    ensures k <= |h|
    ensures k < |h| ==> h[k].name == key
    ensures forall i :: 0 <= i < k ==> h[i].name != key
  {
    FirstIndex(h, (e: Entry) => e.name == key)
  }

  /** One `counts[key] = (counts[key] || 0) + 1`. An own number grows by one and an own
      string gets "1" appended. Without an own property the read finds the inherited member:
      `Object.prototype` itself for `__proto__`, whose setter ignores the resulting string;
      a method for the other inherited names, whose source text plus "1" becomes the new own
      property; `undefined` for every other key, which starts the count at 1. */
  function BumpAsWritten(h: seq<Entry>, key: string): (r: seq<Entry>)
    ensures key == PROTO ==> r == h
    ensures key != PROTO && FindEntry(h, key) == |h| ==> |r| == |h| + 1 && r[..|h|] == h
    ensures FindEntry(h, key) < |h| ==> |r| == |h|
    ensures forall i :: 0 <= i < |h| ==> r[i].name == h[i].name
  {
    var k := FindEntry(h, key);
    if key == PROTO then h
    else if k < |h| then
      h[k := Entry(key, match h[k].value
                        case Num(n) => Num(n + 1)
                        case Str(s) => Str(s + "1"))]
    else if key in INHERITED then h + [Entry(key, Str(NativeSource(key) + "1"))]
    else h + [Entry(key, Num(1))]
  }

  /** Counting keys in the order they come, as written. */
  function HistogramAsWritten(keys: seq<string>): (h: seq<Entry>)
    ensures |h| <= |keys|
    decreases |keys|
  {
    if keys == [] then []
    else BumpAsWritten(HistogramAsWritten(keys[..|keys| - 1]), keys[|keys| - 1])
  }

  /** A `__proto__` key is counted every time and listed never: no run of keys gives the
      object an own property of that name. */
  lemma {:induction false} ProtoIsNeverListed(keys: seq<string>)
    ensures forall i :: 0 <= i < |HistogramAsWritten(keys)| ==> HistogramAsWritten(keys)[i].name != PROTO
    decreases |keys|
  {
    if keys != [] {
      var init := keys[..|keys| - 1];
      ProtoIsNeverListed(init);
      var h := HistogramAsWritten(init);
      var key := keys[|keys| - 1];
      assert HistogramAsWritten(keys) == BumpAsWritten(h, key);
      if FindEntry(h, key) == |h| && key != PROTO {
        assert HistogramAsWritten(keys)[|h|].name == key;
      }
    }
  }

  /** A role granted `__proto__` vanishes from the permission pie, while the corrected
      count lists it once. */
  lemma ProtoGrantIsLost()
    ensures HistogramAsWritten([PROTO]) == []
    ensures D.Histogram([PROTO]) == [D.Slice(PROTO, 1)]
  {
    assert [PROTO][..0] == [];
    var h := D.Histogram([PROTO]);
    D.HistogramNames([PROTO], PROTO);
    assert h[0].name == PROTO;
    assert D.ValueOf(h, PROTO) == 1;
  }

  /** A user whose role is `constructor` is counted as a string, not as 1. */
  lemma InheritedNameCountsAsText(key: string)
    requires key in INHERITED && key != PROTO
    ensures HistogramAsWritten([key]) == [Entry(key, Str(NativeSource(key) + "1"))]
  {
    assert [key][..0] == [];
  }

  /** The corrected histogram, read as the object's entries. */
  function AsEntries(h: seq<D.Slice>): (r: seq<Entry>)
    ensures |r| == |h| && forall i :: 0 <= i < |h| ==> r[i] == Entry(h[i].name, Num(h[i].value))
  {
    Map(h, (s: D.Slice) => Entry(s.name, Num(s.value)))
  }

  lemma {:induction false} FindAsEntries(h: seq<D.Slice>, x: string)
    ensures FindEntry(AsEntries(h), x) == D.Find(h, x)
    decreases h
  {
    if h != [] && h[0].name != x {
      assert AsEntries(h)[1..] == AsEntries(h[1..]);
      FindAsEntries(h[1..], x);
    }
  }

  lemma BumpAgrees(h: seq<D.Slice>, key: string)
    requires key !in INHERITED
    ensures BumpAsWritten(AsEntries(h), key) == AsEntries(D.Bump(h, key))
  {
    var k := D.Find(h, key);
    FindAsEntries(h, key);
    assert key != PROTO;
    if k < |h| {
      var bumped := h[k := D.Slice(key, h[k].value + 1)];
      assert D.Bump(h, key) == bumped;
      assert AsEntries(bumped) == AsEntries(h)[k := Entry(key, Num(h[k].value + 1))];
    } else {
      var grown := h + [D.Slice(key, 1)];
      assert D.Bump(h, key) == grown;
      assert AsEntries(grown) == AsEntries(h) + [Entry(key, Num(1))];
    }
  }

  /** Away from the inherited names the idiom counts correctly: the object's entries are
      exactly the corrected histogram, entry for entry. */
  lemma {:induction false} AgreesOffPrototype(keys: seq<string>)
    requires forall i :: 0 <= i < |keys| ==> keys[i] !in INHERITED
    ensures HistogramAsWritten(keys) == AsEntries(D.Histogram(keys))
    decreases |keys|
  {
    if keys != [] {
      var init := keys[..|keys| - 1];
      AgreesOffPrototype(init);
      BumpAgrees(D.Histogram(init), keys[|keys| - 1]);
    }
  }
}
