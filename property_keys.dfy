/**
 * The `keysDown` object of `ButtonKeybind` as an ordered list of own
 * properties. `Object.keys` lists array-index keys ("0", "7", ...) first in
 * ascending numeric order, then every other key in insertion order; the
 * entries here are kept in exactly that order, so the keys of the object
 * are read off from left to right.
 */
module PropertyKeys {
  import opened Wrappers

  /** One own property: a key label and whether that key is held down. */
  datatype Entry = Entry(key: string, down: bool)

  /** 2^32 - 1: array indices are the canonical numerals below it. */
  const ARRAY_INDEX_LIMIT := 0x1_0000_0000 - 1

  predicate IsDigit(c: char)
  {
    '0' <= c <= '9'
  }

  /** The decimal value of a numeral (of its digit characters). */
  function DecimalValue(s: string): int
  {
    if s == [] then 0
    else DecimalValue(s[..|s| - 1]) * 10 + (s[|s| - 1] as int - '0' as int)
  }

  /** A canonical numeral, without leading zeros, below 2^32 - 1. */
  predicate IsArrayIndex(s: string)
  {
    && |s| > 0
    && (forall i | 0 <= i < |s| :: IsDigit(s[i]))
    && (s[0] != '0' || |s| == 1)
    && DecimalValue(s) < ARRAY_INDEX_LIMIT
  }

  function Keys(es: seq<Entry>): (ks: seq<string>)
    ensures |ks| == |es|
    ensures forall i | 0 <= i < |es| :: ks[i] == es[i].key
  {
    if es == [] then [] else [es[0].key] + Keys(es[1..])
  }

  /** No key appears twice. */
  ghost predicate DistinctKeys(es: seq<Entry>)
  {
    forall i, j | 0 <= i < j < |es| :: es[i].key != es[j].key
  }

  /** An array-index key is preceded only by array-index keys of no greater value. */
  ghost predicate IndicesFirst(es: seq<Entry>)
  {
    forall i, j | 0 <= i < j < |es| && IsArrayIndex(es[j].key) ::
      IsArrayIndex(es[i].key) && DecimalValue(es[i].key) <= DecimalValue(es[j].key)
  }

  /** The order `Object.keys` gives. */
  ghost predicate InPropertyOrder(es: seq<Entry>)
  {
    DistinctKeys(es) && IndicesFirst(es)
  }

  /** Property lookup `keysDown[k]`: `None` is undefined. */
  function Get(es: seq<Entry>, k: string): (r: Option<bool>)
    ensures r.None? <==> k !in Keys(es)
    ensures r.Some? ==> Entry(k, r.value) in es
  {
    if es == [] then None
    else if es[0].key == k then Some(es[0].down)
    else Get(es[1..], k)
  }

  /** Overwrite the value of an existing key, keeping its position. */
  function Update(es: seq<Entry>, k: string, v: bool): (r: seq<Entry>)
    ensures Keys(r) == Keys(es)
    ensures forall i | 0 <= i < |es| :: r[i] == if es[i].key == k then Entry(k, v) else es[i]
  {
    if es == [] then []
    else [if es[0].key == k then Entry(k, v) else es[0]] + Update(es[1..], k, v)
  }

  /** Does a new array-index entry go before the first entry of `es`? */
  predicate GoesFirst(es: seq<Entry>, e: Entry)
  {
    es == [] || !IsArrayIndex(es[0].key) || DecimalValue(e.key) < DecimalValue(es[0].key)
  }

  /** Place a new array-index key after every array-index key of no greater value. */
  function InsertIndex(es: seq<Entry>, e: Entry): seq<Entry>
  {
    if GoesFirst(es, e) then [e] + es else [es[0]] + InsertIndex(es[1..], e)
  }

  /** Where `InsertIndex` places the new entry. */
  function InsertPosition(es: seq<Entry>, e: Entry): (p: nat)
    ensures p <= |es|
  {
    if GoesFirst(es, e) then 0 else 1 + InsertPosition(es[1..], e)
  }

  lemma {:induction false} InsertIndexAt(es: seq<Entry>, e: Entry)
    ensures var p := InsertPosition(es, e);
      InsertIndex(es, e) == es[..p] + [e] + es[p..]
  {
    if !GoesFirst(es, e) {
      InsertIndexAt(es[1..], e);
      var p := InsertPosition(es[1..], e);
      var a, b := es[1..][..p], es[1..][p..];
      assert InsertIndex(es, e) == [es[0]] + (a + [e] + b);
      assert es[..p + 1] == [es[0]] + a;
      assert es[p + 1..] == b;
    }
  }

  /** The assignment `keysDown[k] = v`. */
  function Set(es: seq<Entry>, k: string, v: bool): seq<Entry>
  {
    if k in Keys(es) then Update(es, k, v)
    else if IsArrayIndex(k) then InsertIndex(es, Entry(k, v))
    else es + [Entry(k, v)]
  }

  /** `Object.keys(keysDown).filter((k) => keysDown[k])`: the held keys, in order. */
  function HeldKeys(es: seq<Entry>): (ks: seq<string>)
    ensures |ks| <= |es|
  {
    if es == [] then []
    else (if es[0].down then [es[0].key] else []) + HeldKeys(es[1..])
  }

  /** `list.join('+')` */
  function Join(ks: seq<string>, sep: string): string
  {
    if ks == [] then ""
    else if |ks| == 1 then ks[0]
    else ks[0] + sep + Join(ks[1..], sep)
  }

  /** The joined text starts with the first key, so it is empty only if that key is. */
  lemma JoinStartsWithFirst(ks: seq<string>, sep: string)
    ensures ks != [] ==> ks[0] <= Join(ks, sep)
    ensures ks != [] && ks[0] != "" ==> Join(ks, sep) != ""
  {
  }

  /** Lookup in a concatenation finds the left part first. */
  lemma {:induction false} GetAppend(a: seq<Entry>, b: seq<Entry>, k: string)
    ensures Get(a + b, k) == if k in Keys(a) then Get(a, k) else Get(b, k)
  {
    if a == [] {
      assert a + b == b;
    } else {
      assert (a + b)[1..] == a[1..] + b;
      assert Keys(a) == [a[0].key] + Keys(a[1..]);
      GetAppend(a[1..], b, k);
    }
  }

  lemma {:induction false} KeysAppend(a: seq<Entry>, b: seq<Entry>)
    ensures Keys(a + b) == Keys(a) + Keys(b)
  {
    if a == [] {
      assert a + b == b;
    } else {
      assert (a + b)[1..] == a[1..] + b;
      KeysAppend(a[1..], b);
    }
  }

  lemma KeyNotInTail(es: seq<Entry>, k: string)
    requires k !in Keys(es) && es != []
    ensures k != es[0].key && k !in Keys(es[1..])
  {
    assert Keys(es) == [es[0].key] + Keys(es[1..]);
  }

  /** Putting the new entry in front keeps the order when `GoesFirst` says so. */
  lemma InsertFirstOrdered(es: seq<Entry>, e: Entry)
    requires InPropertyOrder(es) && IsArrayIndex(e.key) && e.key !in Keys(es)
    requires GoesFirst(es, e)
    ensures InPropertyOrder([e] + es)
  {
    var r := [e] + es;
    assert forall j | 0 < j < |r| :: r[j] == es[j - 1];
    assert DistinctKeys(r) by {
      forall i, j | 0 <= i < j < |r| ensures r[i].key != r[j].key {
        if i == 0 { assert r[j].key == Keys(es)[j - 1]; }
      }
    }
    assert IndicesFirst(r) by {
      forall i, j | 0 <= i < j < |r| && IsArrayIndex(r[j].key)
        ensures IsArrayIndex(r[i].key) && DecimalValue(r[i].key) <= DecimalValue(r[j].key)
      {
        if i == 0 && j > 1 {
          assert IsArrayIndex(es[0].key) && DecimalValue(es[0].key) <= DecimalValue(es[j - 1].key);
        }
      }
    }
  }

  /** In property order, the first entry is ordered before every later one. */
  lemma HeadBeforeRest(es: seq<Entry>, x: Entry)
    requires InPropertyOrder(es) && es != [] && x in es[1..]
    ensures es[0].key != x.key
    ensures IsArrayIndex(x.key) ==> IsArrayIndex(es[0].key) && DecimalValue(es[0].key) <= DecimalValue(x.key)
  {
    var m :| 0 <= m < |es[1..]| && es[1..][m] == x;
    assert es[m + 1] == x;
  }

  /** Keeping the first entry in front keeps the order when it does not go after the new one. */
  lemma InsertLaterOrdered(es: seq<Entry>, e: Entry, tail: seq<Entry>)
    requires InPropertyOrder(es) && IsArrayIndex(e.key) && e.key !in Keys(es)
    requires !GoesFirst(es, e)
    requires forall x | x in tail :: x == e || x in es[1..]
    requires InPropertyOrder(tail)
    ensures InPropertyOrder([es[0]] + tail)
  {
    var r := [es[0]] + tail;
    KeyNotInTail(es, e.key);
    forall x | x in tail
      ensures es[0].key != x.key
      ensures IsArrayIndex(x.key) ==> DecimalValue(es[0].key) <= DecimalValue(x.key)
    {
      if x != e {
        HeadBeforeRest(es, x);
      }
    }
    assert forall j | 0 < j < |r| :: r[j] == tail[j - 1] && r[j] in tail;
    assert DistinctKeys(r) by {
      forall i, j | 0 <= i < j < |r| ensures r[i].key != r[j].key {
        if 0 < i { assert r[i] == tail[i - 1] && r[j] == tail[j - 1]; }
      }
    }
    assert IndicesFirst(r) by {
      forall i, j | 0 <= i < j < |r| && IsArrayIndex(r[j].key)
        ensures IsArrayIndex(r[i].key) && DecimalValue(r[i].key) <= DecimalValue(r[j].key)
      {
        if 0 < i { assert r[i] == tail[i - 1] && r[j] == tail[j - 1]; }
      }
    }
  }

  /** Inserting a new array-index key where `InsertIndex` does keeps the property order. */
  lemma {:induction false} InsertIndexOrdered(es: seq<Entry>, e: Entry)
    requires InPropertyOrder(es) && IsArrayIndex(e.key) && e.key !in Keys(es)
    ensures InPropertyOrder(InsertIndex(es, e))
  {
    if GoesFirst(es, e) {
      InsertFirstOrdered(es, e);
    } else {
      KeyNotInTail(es, e.key);
      assert InPropertyOrder(es[1..]) by {
        assert forall i | 0 <= i < |es[1..]| :: es[1..][i] == es[i + 1];
      }
      InsertIndexOrdered(es[1..], e);
      InsertIndexAt(es[1..], e);
      InsertLaterOrdered(es, e, InsertIndex(es[1..], e));
    }
  }

  /** `keysDown[k] = v` keeps the property order. */
  lemma SetOrdered(es: seq<Entry>, k: string, v: bool)
    ensures InPropertyOrder(es) ==> InPropertyOrder(Set(es, k, v))
  {
    if InPropertyOrder(es) {
      var r := Set(es, k, v);
      if k in Keys(es) {
        assert forall i | 0 <= i < |es| :: r[i].key == es[i].key;
      } else if IsArrayIndex(k) {
        InsertIndexOrdered(es, Entry(k, v));
      } else {
        assert r == es + [Entry(k, v)];
        forall i, j | 0 <= i < j < |r|
          ensures r[i].key != r[j].key
        {
          if j == |es| { assert r[i].key == Keys(es)[i]; }
        }
      }
    }
  }


  /** Lookup after putting an entry with a new key at position `p`. */
  lemma GetInserted(es: seq<Entry>, p: nat, e: Entry, k': string)
    requires p <= |es| && e.key !in Keys(es)
    ensures Get(es[..p] + [e] + es[p..], k') == if k' == e.key then Some(e.down) else Get(es, k')
  {
    var a, b := es[..p], es[p..];
    assert es == a + b;
    assert a + [e] + b == a + ([e] + b);
    KeysAppend(a, b);
    GetAppend(a, [e] + b, k');
    GetAppend(a, b, k');
    assert ([e] + b)[1..] == b;
  }

  /**
   * After `keysDown[k] = v`, `k` holds `v`, every other key keeps its value
   * (so no entry is ever removed), and a key that is new and not an array
   * index goes last.
   */
  lemma SetGet(es: seq<Entry>, k: string, v: bool)
    ensures Get(Set(es, k, v), k) == Some(v)
    ensures forall k' | k' != k :: Get(Set(es, k, v), k') == Get(es, k')
    ensures forall k' | k' in Keys(es) :: k' in Keys(Set(es, k, v))
    ensures k !in Keys(es) && !IsArrayIndex(k) ==> Set(es, k, v) == es + [Entry(k, v)]
  {
    if k in Keys(es) {
      UpdateGet(es, k, v);
    } else {
      SetNewGet(es, k, v);
    }
    var r := Set(es, k, v);
    forall k' | k' in Keys(es) ensures k' in Keys(r) {
      assert Get(es, k').Some?;
      assert k' != k ==> Get(r, k') == Get(es, k');
    }
  }

  lemma SetNewGet(es: seq<Entry>, k: string, v: bool)
    requires k !in Keys(es)
    ensures forall k' :: Get(Set(es, k, v), k') == if k' == k then Some(v) else Get(es, k')
  {
    var r := Set(es, k, v);
    var p := if IsArrayIndex(k) then InsertPosition(es, Entry(k, v)) else |es|;
    if IsArrayIndex(k) {
      InsertIndexAt(es, Entry(k, v));
    } else {
      assert es[..p] == es && es[p..] == [];
    }
    assert r == es[..p] + [Entry(k, v)] + es[p..];
    forall k' {
      GetInserted(es, p, Entry(k, v), k');
    }
  }

  lemma {:induction false} UpdateGet(es: seq<Entry>, k: string, v: bool)
    requires k in Keys(es)
    ensures Get(Update(es, k, v), k) == Some(v)
    ensures forall k' | k' != k :: Get(Update(es, k, v), k') == Get(es, k')
  {
    var r := Update(es, k, v);
    assert Keys(es) == [es[0].key] + Keys(es[1..]);
    assert r[1..] == Update(es[1..], k, v);
    if es[0].key != k {
      UpdateGet(es[1..], k, v);
    } else {
      assert forall k' | k' != k :: Get(r, k') == Get(r[1..], k');
      UpdateRest(es[1..], k, v);
    }
  }

  lemma {:induction false} UpdateRest(es: seq<Entry>, k: string, v: bool)
    ensures forall k' | k' != k :: Get(Update(es, k, v), k') == Get(es, k')
  {
    if es != [] {
      var r := Update(es, k, v);
      assert r[1..] == Update(es[1..], k, v);
      UpdateRest(es[1..], k, v);
    }
  }

  lemma {:induction false} HeldKeysAppend(a: seq<Entry>, b: seq<Entry>)
    ensures HeldKeys(a + b) == HeldKeys(a) + HeldKeys(b)
  {
    if a == [] {
      assert a + b == b;
    } else {
      var head := if a[0].down then [a[0].key] else [];
      assert (a + b)[0] == a[0] && (a + b)[1..] == a[1..] + b;
      assert HeldKeys(a + b) == head + HeldKeys(a[1..] + b);
      HeldKeysAppend(a[1..], b);
      assert HeldKeys(a) == head + HeldKeys(a[1..]);
    }
  }

  /** A key appended to the map comes last among the held keys (when it is held). */
  lemma HeldKeysSnoc(es: seq<Entry>, e: Entry)
    ensures HeldKeys(es + [e]) == HeldKeys(es) + if e.down then [e.key] else []
  {
    HeldKeysAppend(es, [e]);
    assert [e][1..] == [];
  }

  /** With no key twice, the held keys are exactly the keys that look up as true. */
  lemma {:induction false} HeldKeysExact(es: seq<Entry>, k: string)
    requires InPropertyOrder(es)
    ensures k in HeldKeys(es) <==> Get(es, k) == Some(true)
  {
    if es != [] {
      assert InPropertyOrder(es[1..]);
      HeldKeysExact(es[1..], k);
      if es[0].key == k {
        assert k !in Keys(es[1..]) by {
          forall i | 0 <= i < |es[1..]| ensures Keys(es[1..])[i] != k {
            assert es[1..][i] == es[i + 1];
          }
        }
      }
    }
  }
}
