/**
 * JavaScript values and plain objects as the site's filter objects use them.
 * An object is the list of its own keys, in insertion order, with their values:
 * exactly what `Object.entries` walks. A key may be present with the value
 * `undefined`; reading an absent key also gives `undefined`.
 */
module JsObject {
  import opened Wrappers
  import opened Strings
  import opened Collections

  datatype JsValue = Undefined | Null | Num(n: int) | Str(s: string) | Bool(b: bool)

  type Entries = seq<(string, JsValue)>

  /** An object never holds the same key twice. */
  ghost predicate DistinctKeys(o: Entries) {
    forall i, j :: 0 <= i < j < |o| ==> o[i].0 != o[j].0
  }

  predicate HasKey(o: Entries, k: string) {
    exists i :: 0 <= i < |o| && o[i].0 == k
  }

  /** JavaScript truthiness. */
  predicate Truthy(v: JsValue) {
    match v
    case Undefined => false
    case Null => false
    case Num(n) => n != 0
    case Str(s) => s != ""
    case Bool(b) => b
  }

  /** `String(v)`. */
  function ToJsString(v: JsValue): (r: string)
    ensures v.Str? ==> r == v.s
    ensures v.Num? && v.n >= 0 ==> ParseInt(r) == Some(v.n)
  {
    match v
    case Undefined => "undefined"
    case Null => "null"
    case Num(n) => NatToStringParses(if n >= 0 then n else 0); IntToString(n)
    case Str(s) => s
    case Bool(b) => if b then "true" else "false"
  }

  /** The declared type of an optional field. */
  datatype Kind = NumKind | StrKind | BoolKind

  /** `v` is what an optional field of that type may hold: `undefined` or a value of the type. */
  predicate HasKind(v: JsValue, kind: Kind) {
    match kind
    case NumKind => v.Undefined? || v.Num?
    case StrKind => v.Undefined? || v.Str?
    case BoolKind => v.Undefined? || v.Bool?
  }

  /** `v || d` for a numeric field: `d` replaces `undefined` and `0`. */
  function NumOr(v: JsValue, d: int): (r: int)
    ensures Truthy(v) && v.Num? ==> r == v.n
    ensures !Truthy(v) ==> r == d
    ensures d != 0 ==> r != 0
  {
    if v.Num? && v.n != 0 then v.n else d
  }

  /** The text of a string field; a field that is not a string reads as `""` here. */
  function StrOf(v: JsValue): string {
    if v.Str? then v.s else ""
  }

  /** `o[k]`. */
  function Get(o: Entries, k: string): (r: JsValue)
    ensures !HasKey(o, k) ==> r == Undefined
  {
    if o == [] then Undefined
    else if o[0].0 == k then o[0].1
    else
      assert HasKey(o[1..], k) ==> HasKey(o, k) by {
        if HasKey(o[1..], k) {
          var i :| 0 <= i < |o[1..]| && o[1..][i].0 == k;
          assert o[i + 1].0 == k;
        }
      }
      Get(o[1..], k)
  }

  /** Reading the key stored at position `i` gives the value stored there. */
  lemma {:induction false} GetAt(o: Entries, i: nat)
    requires DistinctKeys(o) && i < |o|
    ensures Get(o, o[i].0) == o[i].1
  {
    if i > 0 {
      assert o[0].0 != o[i].0;
      assert DistinctKeys(o[1..]) by {
        forall a, b | 0 <= a < b < |o[1..]| ensures o[1..][a].0 != o[1..][b].0 {
          assert o[1..][a] == o[a + 1] && o[1..][b] == o[b + 1];
        }
      }
      assert o[1..][i - 1] == o[i];
      GetAt(o[1..], i - 1);
    }
  }

  /** `o[k] = v` on a copy: an existing key keeps its position, a new one goes last. */
  function Set(o: Entries, k: string, v: JsValue): (r: Entries)
    ensures |r| == if HasKey(o, k) then |o| else |o| + 1
    ensures forall i :: 0 <= i < |o| ==> r[i].0 == o[i].0
  {
    if o == [] then [(k, v)]
    else if o[0].0 == k then [(k, v)] + o[1..]
    else
      assert HasKey(o, k) <==> HasKey(o[1..], k) by {
        if HasKey(o, k) {
          var i :| 0 <= i < |o| && o[i].0 == k;
          assert i > 0 && o[1..][i - 1].0 == k;
        }
        if HasKey(o[1..], k) {
          var i :| 0 <= i < |o[1..]| && o[1..][i].0 == k;
          assert o[i + 1].0 == k;
        }
      }
      [o[0]] + Set(o[1..], k, v)
  }

  /** After `o[k] = v`, reading `k` gives `v` and every other key reads as before. */
  lemma {:induction false} GetSet(o: Entries, k: string, v: JsValue, k': string)
    ensures Get(Set(o, k, v), k') == if k' == k then v else Get(o, k')
  {
    if o != [] && o[0].0 != k {
      GetSet(o[1..], k, v, k');
    }
  }

  /** `o[k] = v` keeps the keys distinct and adds `k` to them. */
  lemma {:induction false} SetKeys(o: Entries, k: string, v: JsValue, k': string)
    ensures HasKey(Set(o, k, v), k') <==> k' == k || HasKey(o, k')
  {
    var r := Set(o, k, v);
    if HasKey(o, k) {
      var i :| 0 <= i < |o| && o[i].0 == k;
      if HasKey(r, k') {
        var j :| 0 <= j < |r| && r[j].0 == k';
        assert o[j].0 == k';
      }
      if HasKey(o, k') {
        var j :| 0 <= j < |o| && o[j].0 == k';
        assert r[j].0 == k';
      }
    } else {
      SetAppends(o, k, v);
      if HasKey(r, k') && k' != k {
        var j :| 0 <= j < |r| && r[j].0 == k';
        assert j < |o| && o[j].0 == k';
      }
      if HasKey(o, k') {
        var j :| 0 <= j < |o| && o[j].0 == k';
        assert r[j].0 == k';
      }
      assert r[|o|].0 == k;
    }
  }

  /** Setting a new key appends it. */
  lemma {:induction false} SetAppends(o: Entries, k: string, v: JsValue)
    requires !HasKey(o, k)
    ensures Set(o, k, v) == o + [(k, v)]
  {
    if o != [] {
      assert o[0].0 != k;
      assert !HasKey(o[1..], k) by {
        forall i | 0 <= i < |o[1..]| ensures o[1..][i].0 != k {
          assert o[1..][i] == o[i + 1];
        }
      }
      SetAppends(o[1..], k, v);
      assert o == [o[0]] + o[1..];
    }
  }

  /** `{...o, ...patch}`: the patch's entries set one after the other. */
  function Spread(o: Entries, patch: Entries): Entries
    decreases |patch|
  {
    if patch == [] then o
    else Spread(Set(o, patch[0].0, patch[0].1), patch[1..])
  }

  /** A key of the patch reads as in the patch (its last occurrence); any other key as before. */
  lemma {:induction false} GetSpread(o: Entries, patch: Entries, k: string)
    requires DistinctKeys(patch)
    ensures Get(Spread(o, patch), k) == if HasKey(patch, k) then Get(patch, k) else Get(o, k)
    decreases |patch|
  {
    if patch != [] {
      var rest := patch[1..];
      assert DistinctKeys(rest) by {
        forall a, b | 0 <= a < b < |rest| ensures rest[a].0 != rest[b].0 {
          assert rest[a] == patch[a + 1] && rest[b] == patch[b + 1];
        }
      }
      GetSpread(Set(o, patch[0].0, patch[0].1), rest, k);
      GetSet(o, patch[0].0, patch[0].1, k);
      if patch[0].0 == k {
        assert !HasKey(rest, k) by {
          forall i | 0 <= i < |rest| ensures rest[i].0 != k {
            assert rest[i] == patch[i + 1];
          }
        }
      } else {
        assert HasKey(patch, k) <==> HasKey(rest, k) by {
          if HasKey(patch, k) {
            var i :| 0 <= i < |patch| && patch[i].0 == k;
            assert i > 0 && rest[i - 1].0 == k;
          }
          if HasKey(rest, k) {
            var i :| 0 <= i < |rest| && rest[i].0 == k;
            assert patch[i + 1].0 == k;
          }
        }
      }
    }
  }

  /** Every key of `o` stays a key of the spread, and so does every key of the patch. */
  lemma {:induction false} SpreadKeys(o: Entries, patch: Entries, k: string)
    ensures HasKey(Spread(o, patch), k) <==> HasKey(o, k) || HasKey(patch, k)
    decreases |patch|
  {
    if patch != [] {
      var rest := patch[1..];
      SpreadKeys(Set(o, patch[0].0, patch[0].1), rest, k);
      SetKeys(o, patch[0].0, patch[0].1, k);
      assert HasKey(patch, k) <==> patch[0].0 == k || HasKey(rest, k) by {
        if HasKey(patch, k) && patch[0].0 != k {
          var i :| 0 <= i < |patch| && patch[i].0 == k;
          assert i > 0 && rest[i - 1].0 == k;
        }
        if HasKey(rest, k) {
          var i :| 0 <= i < |rest| && rest[i].0 == k;
          assert patch[i + 1].0 == k;
        }
      }
    }
  }

  // ---------------------------------------------------------------------------
  // Query pairs: `Object.entries(o).forEach(([k, v]) => { if (v !== undefined) q.append(k, String(v)) })`
  // ---------------------------------------------------------------------------

  predicate Defined(e: (string, JsValue)) { e.1 != Undefined }

  function Rendered(e: (string, JsValue)): (string, string) { (e.0, ToJsString(e.1)) }

  /** The pairs the loop appends, as a function of the object. */
  function QueryPairsOf(o: Entries): seq<(string, string)> {
    MapSeq(Filter(o, Defined), Rendered)
  }

  /** The query-building loop. */
  method QueryPairs(o: Entries) returns (pairs: seq<(string, string)>)
    ensures pairs == QueryPairsOf(o)
  {
    pairs := [];
    var i := 0;
    while i < |o|
      invariant 0 <= i <= |o|
      invariant pairs == QueryPairsOf(o[..i])
    {
      assert o[..i + 1] == o[..i] + [o[i]];
      FilterSnoc(o[..i], o[i], Defined);
      MapConcat(Filter(o[..i], Defined), if Defined(o[i]) then [o[i]] else [], Rendered);
      if o[i].1 != Undefined {
        pairs := pairs + [(o[i].0, ToJsString(o[i].1))];
      }
      i := i + 1;
    }
    assert o[..|o|] == o;
  }

  /**
   * A pair is in the query exactly when its key holds a value other than `undefined`,
   * rendered by `String`: empty strings, `false`, `0` and `null` are all sent.
   */
  lemma {:induction false} QueryPairsMembers(o: Entries, k: string, text: string)
    ensures (k, text) in QueryPairsOf(o) <==>
            exists i :: 0 <= i < |o| && o[i].0 == k && o[i].1 != Undefined && text == ToJsString(o[i].1)
  {
    if o != [] {
      QueryPairsMembers(o[1..], k, text);
      var rest := o[1..];
      assert (exists i :: 0 <= i < |o| && o[i].0 == k && o[i].1 != Undefined && text == ToJsString(o[i].1)) <==>
             (o[0].0 == k && o[0].1 != Undefined && text == ToJsString(o[0].1)) ||
             (exists i :: 0 <= i < |rest| && rest[i].0 == k && rest[i].1 != Undefined && text == ToJsString(rest[i].1)) by {
        forall i | 1 <= i < |o| ensures o[i] == rest[i - 1] { }
        if exists i :: 0 <= i < |o| && o[i].0 == k && o[i].1 != Undefined && text == ToJsString(o[i].1) {
          var i :| 0 <= i < |o| && o[i].0 == k && o[i].1 != Undefined && text == ToJsString(o[i].1);
          if i > 0 {
            assert rest[i - 1] == o[i];
          }
        }
      }
    }
  }

  /** The query of a concatenation is the concatenation of the queries: key order is kept. */
  lemma QueryPairsConcat(a: Entries, b: Entries)
    ensures QueryPairsOf(a + b) == QueryPairsOf(a) + QueryPairsOf(b)
  {
    FilterConcat(a, b, Defined);
    MapConcat(Filter(a, Defined), Filter(b, Defined), Rendered);
  }
}
