/**
 * What a listing query returns: the records in sort order (`find().sort()`),
 * the window that `skip` and `limit` cut out of them, and the pagination
 * summary with `pages = ceil(total / limit)`.
 */
module Listing {
  import opened ObjectIds

  /** Strict lexicographic order on integer sequences; a proper prefix comes first. */
  predicate LexLt(a: seq<int>, b: seq<int>)
    decreases |a|
  {
    if |a| == 0 then |b| > 0
    else if |b| == 0 then false
    else a[0] < b[0] || (a[0] == b[0] && LexLt(a[1..], b[1..]))
  }

  lemma {:induction false} LexIrreflexive(a: seq<int>)
    ensures !LexLt(a, a)
    decreases |a|
  {
    if |a| > 0 {
      LexIrreflexive(a[1..]);
    }
  }

  lemma {:induction false} LexTransitive(a: seq<int>, b: seq<int>, c: seq<int>)
    requires LexLt(a, b) && LexLt(b, c)
    ensures LexLt(a, c)
    decreases |a|
  {
    if |a| > 0 && a[0] == b[0] && b[0] == c[0] {
      LexTransitive(a[1..], b[1..], c[1..]);
    }
  }

  lemma {:induction false} LexTotal(a: seq<int>, b: seq<int>)
    requires a != b
    ensures LexLt(a, b) || LexLt(b, a)
    decreases |a|
  {
    if |a| > 0 && |b| > 0 && a[0] == b[0] {
      assert a == [a[0]] + a[1..] && b == [b[0]] + b[1..];
      LexTotal(a[1..], b[1..]);
    }
  }

  lemma LexAsymmetric(a: seq<int>, b: seq<int>)
    requires LexLt(a, b)
    ensures !LexLt(b, a)
  {
    if LexLt(b, a) {
      LexTransitive(a, b, a);
      LexIrreflexive(a);
    }
  }

  /** The character codes of a string: strings sort by code, character by character. */
  function Codes(s: string): (c: seq<int>)
    ensures |c| == |s| && forall i :: 0 <= i < |s| ==> c[i] == s[i] as int
  {
    seq(|s|, i requires 0 <= i < |s| => s[i] as int)
  }

  lemma CodesInjective(s: string, t: string)
    requires Codes(s) == Codes(t)
    ensures s == t
  {
    assert forall i :: 0 <= i < |s| ==> s[i] as int == Codes(t)[i];
  }

  /**
   * The order of a listing over records with sort keys `keys`: by key, and
   * between equal keys by identifier.
   */
  predicate Before(keys: map<Id, seq<int>>, a: Id, b: Id)
    requires a in keys && b in keys
  {
    LexLt(keys[a], keys[b]) || (keys[a] == keys[b] && LexLt(Codes(a), Codes(b)))
  }

  lemma BeforeIrreflexive(keys: map<Id, seq<int>>, a: Id)
    requires a in keys
    ensures !Before(keys, a, a)
  {
    LexIrreflexive(keys[a]);
    LexIrreflexive(Codes(a));
  }

  lemma BeforeTransitive(keys: map<Id, seq<int>>, a: Id, b: Id, c: Id)
    requires a in keys && b in keys && c in keys
    requires Before(keys, a, b) && Before(keys, b, c)
    ensures Before(keys, a, c)
  {
    if LexLt(keys[a], keys[b]) && LexLt(keys[b], keys[c]) {
      LexTransitive(keys[a], keys[b], keys[c]);
    } else if keys[a] == keys[b] && keys[b] == keys[c] {
      LexTransitive(Codes(a), Codes(b), Codes(c));
    }
  }

  lemma BeforeTotal(keys: map<Id, seq<int>>, a: Id, b: Id)
    requires a in keys && b in keys && a != b
    ensures Before(keys, a, b) || Before(keys, b, a)
  {
    if keys[a] != keys[b] {
      LexTotal(keys[a], keys[b]);
    } else {
      if Codes(a) == Codes(b) {
        CodesInjective(a, b);
      }
      LexTotal(Codes(a), Codes(b));
    }
  }

  lemma BeforeAsymmetric(keys: map<Id, seq<int>>)
    ensures forall a, b :: a in keys && b in keys && Before(keys, a, b) ==> !Before(keys, b, a)
  {
    forall a, b | a in keys && b in keys && Before(keys, a, b)
      ensures !Before(keys, b, a)
    {
      if Before(keys, b, a) {
        BeforeTransitive(keys, a, b, a);
        BeforeIrreflexive(keys, a);
      }
    }
  }

  /** `m` comes before every other record. */
  predicate IsFirst(keys: map<Id, seq<int>>, m: Id)
    requires m in keys
  {
    forall y :: y in keys && y != m ==> Before(keys, m, y)
  }

  lemma {:induction false} FirstExists(keys: map<Id, seq<int>>)
    requires |keys| > 0
    ensures exists m :: m in keys && IsFirst(keys, m)
    decreases |keys|
  {
    var x :| x in keys;
    var rest := keys - {x};
    assert rest.Keys == keys.Keys - {x};
    if |rest| == 0 {
      assert forall y :: y in keys ==> y == x;
      assert IsFirst(keys, x);
    } else {
      FirstExists(rest);
      var m :| m in rest && IsFirst(rest, m);
      BeforeTotal(keys, x, m);
      if Before(keys, x, m) {
        forall y | y in keys && y != x
          ensures Before(keys, x, y)
        {
          if y != m {
            assert y in rest && Before(rest, m, y);
            assert rest[m] == keys[m] && rest[y] == keys[y];
            BeforeTransitive(keys, x, m, y);
          }
        }
        assert IsFirst(keys, x);
      } else {
        forall y | y in keys && y != m
          ensures Before(keys, m, y)
        {
          if y != x {
            assert y in rest && Before(rest, m, y);
            assert rest[m] == keys[m] && rest[y] == keys[y];
          }
        }
        assert IsFirst(keys, m);
      }
    }
  }

  /** The first record followed by the others in listing order is in listing order. */
  lemma FirstThenRest(keys: map<Id, seq<int>>, m: Id, tail: seq<Id>)
    requires m in keys && IsFirst(keys, m)
    requires forall i :: 0 <= i < |tail| ==> tail[i] in keys - {m}
    requires forall i, j :: 0 <= i < j < |tail| ==> Before(keys - {m}, tail[i], tail[j])
    ensures forall i :: 0 <= i < |[m] + tail| ==> ([m] + tail)[i] in keys
    ensures forall i, j :: 0 <= i < j < |[m] + tail| ==> Before(keys, ([m] + tail)[i], ([m] + tail)[j])
  {
    var rest := keys - {m};
    var r := [m] + tail;
    forall i, j | 0 <= i < j < |r|
      ensures Before(keys, r[i], r[j])
    {
      var b := tail[j - 1];
      assert r[j] == b && b in rest && rest[b] == keys[b];
      if i > 0 {
        var a := tail[i - 1];
        assert r[i] == a && a in rest && rest[a] == keys[a];
        assert Before(rest, a, b);
      }
    }
  }

  /**
   * The identifiers of `keys` in listing order: every record exactly once,
   * each before the ones that follow it.
   */
  function Ordered(keys: map<Id, seq<int>>): (r: seq<Id>)
    ensures |r| == |keys|
    ensures forall i :: 0 <= i < |r| ==> r[i] in keys
    ensures forall id :: id in keys ==> id in r
    ensures forall i, j :: 0 <= i < j < |r| ==> Before(keys, r[i], r[j])
    decreases |keys|
  {
    if |keys| == 0 then []
    else
      FirstExists(keys);
      BeforeAsymmetric(keys);
      var m :| m in keys && IsFirst(keys, m);
      var rest := keys - {m};
      assert rest.Keys == keys.Keys - {m};
      var tail := Ordered(rest);
      FirstThenRest(keys, m, tail);
      [m] + tail
  }

  /** No identifier is listed twice. */
  lemma OrderedDistinct(keys: map<Id, seq<int>>)
    ensures forall i, j :: 0 <= i < j < |Ordered(keys)| ==> Ordered(keys)[i] != Ordered(keys)[j]
  {
    var r := Ordered(keys);
    forall i, j | 0 <= i < j < |r|
      ensures r[i] != r[j]
    {
      if r[i] == r[j] {
        BeforeIrreflexive(keys, r[i]);
      }
    }
  }

  /** Along the listing, sort keys never go down. */
  lemma OrderedNeverDescends(keys: map<Id, seq<int>>)
    ensures forall i, j :: 0 <= i < j < |Ordered(keys)| ==>
      !LexLt(keys[Ordered(keys)[j]], keys[Ordered(keys)[i]])
  {
    var r := Ordered(keys);
    forall i, j | 0 <= i < j < |r|
      ensures !LexLt(keys[r[j]], keys[r[i]])
    {
      assert Before(keys, r[i], r[j]);
      if LexLt(keys[r[i]], keys[r[j]]) {
        LexAsymmetric(keys[r[i]], keys[r[j]]);
      } else {
        LexIrreflexive(keys[r[i]]);
      }
    }
  }

  /** The sort key `{ createdAt: -1 }` of records created at `stamps`. */
  function NewestKeys(stamps: map<Id, int>): (keys: map<Id, seq<int>>)
    ensures keys.Keys == stamps.Keys
    ensures forall id :: id in keys ==> keys[id] == [-stamps[id]]
  {
    map id | id in stamps :: [-stamps[id]]
  }

  /**
   * The identifiers of records created at `stamps`, newest first: each
   * record exactly once, creation times never going up along the listing.
   */
  function NewestFirst(stamps: map<Id, int>): (ids: seq<Id>)
    ensures |ids| == |stamps|
    ensures forall i :: 0 <= i < |ids| ==> ids[i] in stamps
    ensures forall id :: id in stamps ==> id in ids
    ensures forall i, j :: 0 <= i < j < |ids| ==> ids[i] != ids[j]
    ensures forall i, j :: 0 <= i < j < |ids| ==> stamps[ids[j]] <= stamps[ids[i]]
  {
    var keys := NewestKeys(stamps);
    var ids := Ordered(keys);
    OrderedDistinct(keys);
    OrderedNeverDescends(keys);
    forall i, j | 0 <= i < j < |ids|
      ensures stamps[ids[j]] <= stamps[ids[i]]
    {
      assert !LexLt(keys[ids[j]], keys[ids[i]]);
    }
    ids
  }

  /** The records stored under `ids`, in that order. */
  function RecordsAt<T>(m: map<Id, T>, ids: seq<Id>): (rs: seq<T>)
    requires forall i :: 0 <= i < |ids| ==> ids[i] in m
    ensures |rs| == |ids| && forall i :: 0 <= i < |ids| ==> rs[i] == m[ids[i]]
  {
    seq(|ids|, i requires 0 <= i < |ids| => m[ids[i]])
  }

  /** Records read from a map are stored records. */
  lemma RecordsStored<T>(m: map<Id, T>, ids: seq<Id>, rs: seq<T>)
    requires |rs| == |ids| && forall i :: 0 <= i < |ids| ==> ids[i] in m && rs[i] == m[ids[i]]
    ensures forall i :: 0 <= i < |rs| ==> rs[i] in m.Values
  {
    forall i | 0 <= i < |rs|
      ensures rs[i] in m.Values
    {
      assert m[ids[i]] == rs[i];
    }
  }

  /** Every record stored under an identifier of `keep` is listed, when every such identifier is. */
  lemma RecordsListed<T>(m: map<Id, T>, ids: seq<Id>, rs: seq<T>, keep: set<Id>)
    requires forall id :: id in keep ==> id in m && id in ids
    requires |rs| == |ids| && forall i :: 0 <= i < |ids| ==> ids[i] in m && rs[i] == m[ids[i]]
    ensures forall id :: id in keep ==> m[id] in rs
  {
    forall id | id in keep
      ensures m[id] in rs
    {
      var k :| 0 <= k < |ids| && ids[k] == id;
      assert rs[k] == m[id];
    }
  }

  function Min(a: int, b: int): int {
    if a <= b then a else b
  }

  /** `.skip(skip).limit(limit)`: at most `limit` records, starting at position `skip`. */
  function Window<T>(xs: seq<T>, skip: nat, limit: nat): (w: seq<T>)
    ensures |w| == if skip >= |xs| then 0 else Min(limit, |xs| - skip)
    ensures forall i :: 0 <= i < |w| ==> w[i] == xs[skip + i]
  {
    if skip >= |xs| then [] else xs[skip..skip + Min(limit, |xs| - skip)]
  }

  /** `Math.ceil(total / limit)`. */
  function PageCount(total: nat, limit: nat): (pages: nat)
    requires limit >= 1
    ensures pages * limit >= total
    ensures pages == 0 || (pages - 1) * limit < total
  {
    (total + limit - 1) / limit
  }

  /** The response of a listing: the window and the pagination summary. */
  datatype Page<T> = Page(data: seq<T>, total: nat, page: nat, limit: nat, pages: nat)

  /** `skip = (page - 1) * limit`. */
  function Skip(page: nat, limit: nat): nat
    requires page >= 1
  {
    (page - 1) * limit
  }

  /** Page `page` of `limit` records of the ordered `records`. */
  function Paginate<T>(records: seq<T>, page: nat, limit: nat): (p: Page<T>)
    requires page >= 1 && limit >= 1
    ensures p.total == |records| && p.page == page && p.limit == limit
    ensures p.pages == PageCount(|records|, limit)
    ensures p.data == Window(records, Skip(page, limit), limit)
  {
    Page(Window(records, Skip(page, limit), limit), |records|, page, limit, PageCount(|records|, limit))
  }

  /** A multiple of `limit` that fits in `n` counts at most `n / limit` times `limit`. */
  lemma DivLowerBound(a: nat, n: nat, limit: nat)
    requires limit >= 1 && a * limit <= n
    ensures a <= n / limit
  {
    var q := n / limit;
    assert n == q * limit + n % limit;
    var d := a - q;
    assert d * limit == a * limit - q * limit;
    ProductBelowFactor(d, limit);
  }

  lemma ProductBelowFactor(d: int, limit: nat)
    requires limit >= 1 && d * limit < limit
    ensures d < 1
  {
  }

  /**
   * The pages partition the records: record `i` is on page `i / limit + 1`,
   * at position `i % limit`, and that page is at most `pages`.
   */
  lemma PagesCover<T>(records: seq<T>, limit: nat, i: nat)
    requires limit >= 1 && i < |records|
    ensures var page := i / limit + 1;
      && page <= PageCount(|records|, limit)
      && i % limit < |Paginate(records, page, limit).data|
      && Paginate(records, page, limit).data[i % limit] == records[i]
  {
    var q, r := i / limit, i % limit;
    assert i == q * limit + r;
    assert (q + 1) * limit == q * limit + limit;
    DivLowerBound(q + 1, |records| + limit - 1, limit);
    assert Skip(q + 1, limit) == q * limit;
  }

  lemma PageEmptyPastLast<T>(records: seq<T>, page: nat, limit: nat)
    requires page >= 1 && limit >= 1
    ensures Paginate(records, page, limit).data == [] <==> page > PageCount(|records|, limit)
  {
    var pages := PageCount(|records|, limit);
    var skip := Skip(page, limit);
    if page > pages {
      MulMonotone(pages, page - 1, limit);
      assert skip >= pages * limit;
    } else {
      MulMonotone(page - 1, pages - 1, limit);
      assert skip <= (pages - 1) * limit;
    }
  }

  lemma MulMonotone(a: nat, b: nat, c: nat)
    requires a <= b
    ensures a * c <= b * c
  {
    var d := b - a;
    assert b * c == a * c + d * c;
  }
}
