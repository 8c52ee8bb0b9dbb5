/** A database collection: documents keyed by id and listed in ascending
    code-point order of their ids, which is the order in which the database
    streams an unordered query. Writes keep that order, so "document order"
    and "first match" are read off the sequence. */
module Collection {
  import opened Common

  datatype Entry<P> = Entry(id: string, body: P)

  type Coll<P> = seq<Entry<P>>

  /** Ids strictly ascend, hence are unique. */
  predicate Ordered<P>(c: Coll<P>)
  {
    forall i, j :: 0 <= i < j < |c| ==> StrLt(c[i].id, c[j].id)
  }

  function Ids<P(==)>(c: Coll<P>): set<string>
  {
    set e | e in c :: e.id
  }

  /** The document stored under `id`, if any. */
  function Find<P(==)>(c: Coll<P>, id: string): (r: Option<P>)
    ensures r.Some? <==> id in Ids(c)
    ensures r.Some? ==> Entry(id, r.value) in c
  {
    if |c| == 0 then None
    else if c[0].id == id then Some(c[0].body)
    else
      IdsHead(c);
      Find(c[1..], id)
  }

  lemma FindOrdered<P>(c: Coll<P>, i: nat)
    requires Ordered(c) && i < |c|
    ensures Find(c, c[i].id) == Some(c[i].body)
  {
    if i > 0 {
      assert c[0].id != c[i].id by { StrLtAsymmetric(c[0].id, c[i].id); }
      FindOrdered(c[1..], i - 1);
    }
  }

  lemma IdsHead<P>(c: Coll<P>)
    requires |c| > 0
    ensures Ids(c) == {c[0].id} + Ids(c[1..])
  {
    assert forall e :: e in c <==> e == c[0] || e in c[1..];
  }

  lemma OrderedHeadBelow<P>(c: Coll<P>, k: string)
    requires Ordered(c) && |c| > 0 && k in Ids(c[1..])
    ensures StrLt(c[0].id, k)
  {
    var e :| e in c[1..] && e.id == k;
    var j :| 0 <= j < |c[1..]| && c[1..][j] == e;
    assert c[j + 1] == e;
  }

  /** Prepending an entry whose id is below every id of an ordered
      collection keeps it ordered. */
  lemma ConsOrdered<P>(e: Entry<P>, c: Coll<P>)
    requires Ordered(c)
    requires forall k :: k in Ids(c) ==> StrLt(e.id, k)
    ensures Ordered([e] + c)
  {
    var r := [e] + c;
    forall i, j | 0 <= i < j < |r| ensures StrLt(r[i].id, r[j].id) {
      if i == 0 {
        assert r[j] == c[j - 1];
        assert c[j - 1] in c;
      } else {
        assert r[i] == c[i - 1] && r[j] == c[j - 1];
      }
    }
  }

  lemma BelowHeadBelowAll<P>(k: string, c: Coll<P>)
    requires Ordered(c) && |c| > 0 && StrLt(k, c[0].id)
    ensures forall x :: x in Ids(c) ==> StrLt(k, x)
  {
    forall x | x in Ids(c) ensures StrLt(k, x) {
      IdsHead(c);
      if x != c[0].id {
        OrderedHeadBelow(c, x);
        StrLtTransitive(k, c[0].id, x);
      }
    }
  }

  /** What writing `body` under `id` into `c` leaves: `r` holds the same
      documents as `c` except that `id` now holds `body`, and it is ordered
      whenever `c` is. */
  ghost predicate Written<P>(c: Coll<P>, id: string, body: P, r: Coll<P>)
  {
    && Ids(r) == Ids(c) + {id}
    && Find(r, id) == Some(body)
    && (forall k :: k != id ==> Find(r, k) == Find(c, k))
    && (Ordered(c) ==> Ordered(r))
  }

  /** `set` of one document: replaces the body under `id`, or inserts it at its
      place in id order. */
  function Put<P(==)>(c: Coll<P>, id: string, body: P): (r: Coll<P>)
    ensures Ids(r) == Ids(c) + {id}
    ensures Find(r, id) == Some(body)
    ensures forall k :: k != id ==> Find(r, k) == Find(c, k)
    ensures Ordered(c) ==> Ordered(r)
    decreases |c|
  {
    if |c| == 0 then
      IdsHead([Entry(id, body)]);
      [Entry(id, body)]
    else if c[0].id == id then
      WriteAtHead(c, id, body);
      [Entry(id, body)] + c[1..]
    else if StrLt(id, c[0].id) then
      WriteBeforeHead(c, id, body);
      [Entry(id, body)] + c
    else
      var rest := Put(c[1..], id, body);
      WriteAfterHead(c, id, body, rest);
      [c[0]] + rest
  }

  lemma WriteAtHead<P>(c: Coll<P>, id: string, body: P)
    requires |c| > 0 && c[0].id == id
    ensures Written(c, id, body, [Entry(id, body)] + c[1..])
  {
    var r := [Entry(id, body)] + c[1..];
    IdsHead(c);
    IdsHead(r);
    assert r[1..] == c[1..];
    if Ordered(c) {
      assert Ordered(c[1..]);
      forall k | k in Ids(c[1..]) ensures StrLt(id, k) { OrderedHeadBelow(c, k); }
      ConsOrdered(Entry(id, body), c[1..]);
    }
  }

  lemma WriteBeforeHead<P>(c: Coll<P>, id: string, body: P)
    requires |c| > 0 && StrLt(id, c[0].id)
    ensures Written(c, id, body, [Entry(id, body)] + c)
  {
    var r := [Entry(id, body)] + c;
    IdsHead(r);
    assert r[1..] == c;
    if Ordered(c) {
      BelowHeadBelowAll(id, c);
      ConsOrdered(Entry(id, body), c);
    }
  }

  lemma WriteAfterHead<P>(c: Coll<P>, id: string, body: P, rest: Coll<P>)
    requires |c| > 0 && c[0].id != id && !StrLt(id, c[0].id)
    requires Written(c[1..], id, body, rest)
    ensures Written(c, id, body, [c[0]] + rest)
  {
    IdsHead(c);
    ConsParts(c[0], rest);
    FindCons(c[0], rest, id);
    forall k | k != id ensures Find([c[0]] + rest, k) == Find(c, k) {
      FindCons(c[0], rest, k);
    }
    if Ordered(c) {
      assert Ordered(c[1..]);
      OrderedAfterHead(c, id, rest);
    }
  }

  lemma OrderedAfterHead<P>(c: Coll<P>, id: string, rest: Coll<P>)
    requires Ordered(c) && |c| > 0 && c[0].id != id && !StrLt(id, c[0].id)
    requires Ids(rest) == Ids(c[1..]) + {id} && Ordered(rest)
    ensures Ordered([c[0]] + rest)
  {
    StrLtTrichotomy(id, c[0].id);
    forall k | k in Ids(rest) ensures StrLt(c[0].id, k) {
      if k != id { OrderedHeadBelow(c, k); }
    }
    ConsOrdered(c[0], rest);
  }

  /** The shape of a write, case by case. */
  lemma PutCases<P>(c: Coll<P>, id: string, body: P)
    ensures |c| == 0 ==> Put(c, id, body) == [Entry(id, body)]
    ensures |c| > 0 && c[0].id == id ==> Put(c, id, body) == [Entry(id, body)] + c[1..]
    ensures |c| > 0 && c[0].id != id && StrLt(id, c[0].id) ==> Put(c, id, body) == [Entry(id, body)] + c
    ensures |c| > 0 && c[0].id != id && !StrLt(id, c[0].id) ==> Put(c, id, body) == [c[0]] + Put(c[1..], id, body)
  {
  }

  /** Writing an id past the head of an ordered collection writes it into
      the tail. */
  lemma PutPastHead<P>(c: Coll<P>, id: string, body: P)
    requires Ordered(c) && |c| > 0 && c[0].id != id && id in Ids(c)
    ensures Ordered(c[1..]) && id in Ids(c[1..])
    ensures Find(c, id) == Find(c[1..], id)
    ensures Put(c, id, body) == [c[0]] + Put(c[1..], id, body)
  {
    IdsHead(c);
    OrderedHeadBelow(c, id);
    StrLtAsymmetric(c[0].id, id);
    assert Ordered(c[1..]);
  }

  /** `delete` of one document; deleting a missing id changes nothing. */
  function Delete<P(==)>(c: Coll<P>, id: string): (r: Coll<P>)
    ensures Ids(r) == Ids(c) - {id}
    ensures forall k :: k != id ==> Find(r, k) == Find(c, k)
    ensures Ordered(c) ==> Ordered(r)
    ensures id !in Ids(c) ==> r == c
    decreases |c|
  {
    if |c| == 0 then c
    else
      var rest := Delete(c[1..], id);
      if c[0].id == id then
        DeleteAtHead(c, id, rest);
        rest
      else
        DeletePastHead(c, id, rest);
        [c[0]] + rest
  }

  /** What deleting `id` from `c` leaves: `r` holds the same documents as
      `c` except the one under `id`, is ordered whenever `c` is, and is `c`
      itself when there was nothing to delete. */
  ghost predicate Removed<P>(c: Coll<P>, id: string, r: Coll<P>)
  {
    && Ids(r) == Ids(c) - {id}
    && (forall k :: k != id ==> Find(r, k) == Find(c, k))
    && (Ordered(c) ==> Ordered(r))
    && (id !in Ids(c) ==> r == c)
  }

  lemma DeleteAtHead<P>(c: Coll<P>, id: string, rest: Coll<P>)
    requires |c| > 0 && c[0].id == id
    requires Removed(c[1..], id, rest)
    ensures Removed(c, id, rest)
  {
    IdsHead(c);
    if Ordered(c) {
      assert Ordered(c[1..]);
      if id in Ids(c[1..]) {
        OrderedHeadBelow(c, id);
        StrLtIrreflexive(id);
      }
    }
  }

  lemma DeletePastHead<P>(c: Coll<P>, id: string, rest: Coll<P>)
    requires |c| > 0 && c[0].id != id
    requires Removed(c[1..], id, rest)
    ensures Removed(c, id, [c[0]] + rest)
  {
    IdsHead(c);
    ConsParts(c[0], rest);
    forall k | k != id ensures Find([c[0]] + rest, k) == Find(c, k) {
      FindCons(c[0], rest, k);
    }
    if Ordered(c) {
      OrderedPastHead(c, rest);
    }
    if id !in Ids(c) {
      assert rest == c[1..];
      HeadTail(c);
    }
  }

  lemma HeadTail<T>(s: seq<T>)
    requires |s| > 0
    ensures [s[0]] + s[1..] == s
  {
  }

  lemma FindCons<P>(e: Entry<P>, rest: Coll<P>, k: string)
    ensures Find([e] + rest, k) == if e.id == k then Some(e.body) else Find(rest, k)
  {
    assert ([e] + rest)[1..] == rest;
  }

  lemma ConsParts<P>(e: Entry<P>, rest: Coll<P>)
    ensures ([e] + rest)[0] == e && ([e] + rest)[1..] == rest
    ensures Ids([e] + rest) == {e.id} + Ids(rest)
  {
    IdsHead([e] + rest);
    assert ([e] + rest)[1..] == rest;
  }

  lemma OrderedPastHead<P>(c: Coll<P>, rest: Coll<P>)
    requires Ordered(c) && |c| > 0
    requires Ids(rest) <= Ids(c[1..]) && Ordered(rest)
    ensures Ordered([c[0]] + rest)
  {
    forall k | k in Ids(rest) ensures StrLt(c[0].id, k) { OrderedHeadBelow(c, k); }
    ConsOrdered(c[0], rest);
  }

  /** The bodies, in document order. */
  function Bodies<P>(c: Coll<P>): (r: seq<P>)
    ensures |r| == |c|
    ensures forall i :: 0 <= i < |c| ==> r[i] == c[i].body
  {
    seq(|c|, i requires 0 <= i < |c| => c[i].body)
  }
}
