/** A Python `dict` of string keys and values, kept as a list of pairs in insertion order,
    and the Telegram data-check string built from it: every pair except `hash`, sorted by
    key, rendered `key=value` and joined with newlines. */
module QueryDict {

  import opened Common
  import opened Text

  type Pair = (string, string)

  /** No key occurs twice: the shape of a dict's items. */
  predicate DistinctKeys(d: seq<Pair>)
  {
    forall i, j :: 0 <= i < j < |d| ==> d[i].0 != d[j].0
  }

  function KeySet(d: seq<Pair>): set<string>
  {
    set p | p in d :: p.0
  }

  /** `d.get(k)`. */
  function Get(d: seq<Pair>, k: string): Option<string>
    decreases |d|
  {
    if |d| == 0 then None
    else if d[0].0 == k then Some(d[0].1)
    else Get(d[1..], k)
  }

  /** A key has a value exactly when it is one of the keys. */
  lemma {:induction false} GetKeySet(d: seq<Pair>, k: string)
    ensures Get(d, k).Some? <==> k in KeySet(d)
    decreases |d|
  {
    if |d| > 0 {
      GetKeySet(d[1..], k);
      assert d == [d[0]] + d[1..];
      assert KeySet(d) == {d[0].0} + KeySet(d[1..]);
    }
  }

  /** In a dict, looking a key up finds v exactly when the pair (k, v) is one of its items. */
  lemma {:induction false} GetMember(d: seq<Pair>, k: string, v: string)
    requires DistinctKeys(d)
    ensures Get(d, k) == Some(v) <==> (k, v) in d
    decreases |d|
  {
    if |d| > 0 {
      GetMember(d[1..], k, v);
      assert d == [d[0]] + d[1..];
      DistinctTail(d);
      GetKeySet(d[1..], k);
    }
  }

  lemma DistinctTail(d: seq<Pair>)
    requires DistinctKeys(d) && |d| > 0
    ensures DistinctKeys(d[1..]) && d[0].0 !in KeySet(d[1..])
    ensures KeySet(d) == {d[0].0} + KeySet(d[1..])
  {
    assert d == [d[0]] + d[1..];
  }

  lemma DistinctCons(p: Pair, s: seq<Pair>)
    requires DistinctKeys(s) && p.0 !in KeySet(s)
    ensures DistinctKeys([p] + s)
    ensures KeySet([p] + s) == {p.0} + KeySet(s)
    ensures ([p] + s)[1..] == s
  {
    var t := [p] + s;
    forall i, j | 0 <= i < j < |t| ensures t[i].0 != t[j].0 {
      if i == 0 {
        assert t[j] in s;
      }
    }
  }

  /** `d[k] = v`: a new key goes last, an existing key keeps its place with the new value. */
  function Put(d: seq<Pair>, k: string, v: string): (r: seq<Pair>)
    requires DistinctKeys(d)
    ensures DistinctKeys(r)
    ensures KeySet(r) == KeySet(d) + {k}
    ensures Get(r, k) == Some(v)
    ensures forall j :: j != k ==> Get(r, j) == Get(d, j)
    ensures k !in KeySet(d) ==> r == d + [(k, v)]
    decreases |d|
  {
    if |d| == 0 then [(k, v)]
    else
      DistinctTail(d);
      if d[0].0 == k then
        DistinctCons((k, v), d[1..]);
        [(k, v)] + d[1..]
      else
        var rest := Put(d[1..], k, v);
        PutBehind(d, k, v, rest);
        [d[0]] + rest
  }

  /** Putting k behind a first pair with another key: the step of Put's recursion. */
  lemma PutBehind(d: seq<Pair>, k: string, v: string, rest: seq<Pair>)
    requires DistinctKeys(d) && |d| > 0 && d[0].0 != k
    requires DistinctKeys(rest) && KeySet(rest) == KeySet(d[1..]) + {k}
    requires Get(rest, k) == Some(v) && forall j :: j != k ==> Get(rest, j) == Get(d[1..], j)
    requires k !in KeySet(d[1..]) ==> rest == d[1..] + [(k, v)]
    ensures var r := [d[0]] + rest;
      && DistinctKeys(r)
      && KeySet(r) == KeySet(d) + {k}
      && Get(r, k) == Some(v)
      && (forall j :: j != k ==> Get(r, j) == Get(d, j))
      && (k !in KeySet(d) ==> r == d + [(k, v)])
  {
    DistinctTail(d);
    DistinctCons(d[0], rest);
    assert d == [d[0]] + d[1..];
  }

  /** The value a list of pairs leaves for k when later pairs overwrite earlier ones. */
  function LastValue(ps: seq<Pair>, k: string): Option<string>
    decreases |ps|
  {
    if |ps| == 0 then None
    else if ps[|ps| - 1].0 == k then Some(ps[|ps| - 1].1)
    else LastValue(ps[..|ps| - 1], k)
  }

  /** `dict(pairs)`, or filling a dict pair by pair: a later duplicate key overwrites. */
  function FromPairs(ps: seq<Pair>): (r: seq<Pair>)
    ensures DistinctKeys(r)
    ensures forall k :: Get(r, k) == LastValue(ps, k)
    decreases |ps|
  {
    if |ps| == 0 then []
    else
      var last := ps[|ps| - 1];
      Put(FromPairs(ps[..|ps| - 1]), last.0, last.1)
  }

  /** `d.pop(k, None)` without the returned value: the dict with key k removed. */
  function Remove(d: seq<Pair>, k: string): (r: seq<Pair>)
    requires DistinctKeys(d)
    ensures DistinctKeys(r)
    ensures KeySet(r) == KeySet(d) - {k}
    ensures Get(r, k) == None
    ensures forall j :: j != k ==> Get(r, j) == Get(d, j)
    decreases |d|
  {
    if |d| == 0 then d
    else
      DistinctTail(d);
      var rest := Remove(d[1..], k);
      if d[0].0 == k then
        GetKeySet(d[1..], k);
        rest
      else
        DistinctCons(d[0], rest);
        [d[0]] + rest
  }

  /** Keys strictly increasing in Python's string order. */
  predicate SortedByKey(s: seq<Pair>)
  {
    forall i, j :: 0 <= i < j < |s| ==> Less(s[i].0, s[j].0)
  }

  lemma SortedCons(p: Pair, s: seq<Pair>)
    requires SortedByKey(s)
    requires |s| > 0 ==> Less(p.0, s[0].0)
    ensures SortedByKey([p] + s)
  {
    var t := [p] + s;
    forall i, j | 0 <= i < j < |t|
      ensures Less(t[i].0, t[j].0)
    {
      if i == 0 && j > 1 {
        LessTransitive(p.0, s[0].0, s[j - 1].0);
      }
    }
  }

  lemma MultisetKeySet(a: seq<Pair>, b: seq<Pair>)
    requires multiset(a) == multiset(b)
    ensures KeySet(a) == KeySet(b)
  {
    forall p | p in a ensures p in b {
      assert p in multiset(a);
    }
    forall p | p in b ensures p in a {
      assert p in multiset(b);
    }
  }

  /** One insertion step of sorting by key. */
  function InsertByKey(p: Pair, s: seq<Pair>): (r: seq<Pair>)
    requires SortedByKey(s) && p.0 !in KeySet(s)
    ensures SortedByKey(r)
    ensures multiset(r) == multiset(s) + multiset{p}
    ensures r[0] == p || (|s| > 0 && r[0] == s[0])
    decreases |s|
  {
    if |s| == 0 then [p]
    else if Less(p.0, s[0].0) then
      SortedCons(p, s);
      [p] + s
    else
      assert s == [s[0]] + s[1..];
      assert KeySet(s) == {s[0].0} + KeySet(s[1..]);
      var rest := InsertByKey(p, s[1..]);
      LessTotal(p.0, s[0].0);
      SortedCons(s[0], rest);
      [s[0]] + rest
  }

  /** `sorted(d.items())`: the items in increasing key order. */
  function SortByKey(d: seq<Pair>): (r: seq<Pair>)
    requires DistinctKeys(d)
    ensures SortedByKey(r)
    ensures multiset(r) == multiset(d)
    decreases |d|
  {
    if |d| == 0 then []
    else
      var rest := SortByKey(d[1..]);
      assert d == [d[0]] + d[1..];
      MultisetKeySet(rest, d[1..]);
      InsertByKey(d[0], rest)
  }

  /** The pairs the data-check string renders: every item except `hash`, sorted by key. */
  function DataCheckLines(d: seq<Pair>): (r: seq<Pair>)
    requires DistinctKeys(d)
    ensures SortedByKey(r)
    ensures KeySet(r) == KeySet(d) - {"hash"}
    ensures forall i :: 0 <= i < |r| ==> r[i].0 != "hash" && Get(d, r[i].0) == Some(r[i].1)
  {
    var rest := Remove(d, "hash");
    var r := SortByKey(rest);
    MultisetKeySet(r, rest);
    assert forall i :: 0 <= i < |r| ==> r[i] in multiset(rest);
    LinesFromRest(d, rest, r);
    r
  }

  lemma LinesFromRest(d: seq<Pair>, rest: seq<Pair>, r: seq<Pair>)
    requires DistinctKeys(d) && rest == Remove(d, "hash")
    requires forall i :: 0 <= i < |r| ==> r[i] in multiset(rest)
    ensures forall i :: 0 <= i < |r| ==> r[i].0 != "hash" && Get(d, r[i].0) == Some(r[i].1)
  {
    forall i | 0 <= i < |r|
      ensures r[i].0 != "hash" && Get(d, r[i].0) == Some(r[i].1)
    {
      assert r[i] in rest;
      GetMember(rest, r[i].0, r[i].1);
    }
  }

  /** `f"{k}={v}"`. */
  function Render(p: Pair): string
  {
    p.0 + "=" + p.1
  }

  function RenderAll(s: seq<Pair>): (r: seq<string>)
    ensures |r| == |s| && forall i :: 0 <= i < |s| ==> r[i] == Render(s[i])
  {
    seq(|s|, i requires 0 <= i < |s| => Render(s[i]))
  }

  /** `"\n".join(f"{k}={v}" for k, v in sorted(items) if k != "hash")`. */
  function DataCheckString(d: seq<Pair>): string
    requires DistinctKeys(d)
  {
    Join(RenderAll(DataCheckLines(d)), '\n')
  }

  /** A pair is a data-check line exactly when it is a non-`hash` entry of the dict. */
  lemma LinesMembership(d: seq<Pair>, x: Pair)
    requires DistinctKeys(d)
    ensures x in DataCheckLines(d) <==> x.0 != "hash" && Get(d, x.0) == Some(x.1)
  {
    var r := DataCheckLines(d);
    if x.0 != "hash" && Get(d, x.0) == Some(x.1) {
      GetKeySet(d, x.0);
      assert x.0 in KeySet(r);
      var y :| y in r && y.0 == x.0;
      var i :| 0 <= i < |r| && r[i] == y;
      assert Get(d, y.0) == Some(y.1);
    }
  }

  lemma HeadIn(s: seq<Pair>)
    requires |s| > 0
    ensures s[0] in s
  {
  }

  /** Two key-sorted lists holding the same pairs are the same list. */
  lemma {:induction false} SortedUnique(a: seq<Pair>, b: seq<Pair>)
    requires SortedByKey(a) && SortedByKey(b)
    requires forall x :: x in a <==> x in b
    ensures a == b
    decreases |a|
  {
    if |a| > 0 && |b| > 0 {
      if a[0] != b[0] {
        assert b[0] in a && a[0] in b;
        var i :| 0 <= i < |a| && a[i] == b[0];
        var j :| 0 <= j < |b| && b[j] == a[0];
        assert Less(a[0].0, b[0].0) by {
          assert i > 0;
        }
        assert Less(b[0].0, a[0].0) by {
          assert j > 0;
        }
        LessTotal(a[0].0, b[0].0);
      }
      forall x | x in a[1..] ensures x in b[1..] {
        var i :| 1 <= i < |a| && a[i] == x;
        LessIrreflexive(a[0].0);
        assert x != a[0];
        assert x in b;
      }
      forall x | x in b[1..] ensures x in a[1..] {
        var j :| 1 <= j < |b| && b[j] == x;
        LessIrreflexive(b[0].0);
        assert x != b[0];
        assert x in a;
      }
      SortedUnique(a[1..], b[1..]);
      assert a == [a[0]] + a[1..];
      assert b == [b[0]] + b[1..];
    } else if |a| > 0 {
      HeadIn(a);
      assert false;
    } else if |b| > 0 {
      HeadIn(b);
      assert false;
    }
  }

  /** The data-check string depends only on the dict's contents other than `hash`, not on
      item order. */
  lemma DataCheckStringDeterminedByContents(d1: seq<Pair>, d2: seq<Pair>)
    requires DistinctKeys(d1) && DistinctKeys(d2)
    requires forall k :: k != "hash" ==> Get(d1, k) == Get(d2, k)
    ensures DataCheckLines(d1) == DataCheckLines(d2)
    ensures DataCheckString(d1) == DataCheckString(d2)
  {
    forall x ensures x in DataCheckLines(d1) <==> x in DataCheckLines(d2) {
      LinesMembership(d1, x);
      LinesMembership(d2, x);
    }
    SortedUnique(DataCheckLines(d1), DataCheckLines(d2));
  }

  /** The query string a client sends: `key=value` fields joined by `&`. */
  function Encode(fields: seq<Pair>): string
  {
    Join(RenderAll(fields), '&')
  }

  /** A query string with at least one field is not empty. */
  lemma EncodeNonEmpty(fields: seq<Pair>)
    requires |fields| > 0
    ensures |Encode(fields)| > 0
  {
    var parts := RenderAll(fields);
    assert |parts[0]| > 0 by {
      assert parts[0] == Render(fields[0]);
    }
    JoinNonEmpty(parts, '&');
  }
}
