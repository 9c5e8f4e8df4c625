/** Post records and the list operations the component builds its new state
    from: `filter` by id and `indexOf` by object identity, and a lemma about
    prepending. */
module Posts {

  /** A post as plain data: what the table shows and what a request carries. */
  datatype PostValue = PostValue(id: int, title: string, body: string)

  /** A post object held in the component's state. Objects are shared by
      reference, so changing `title` is seen by every list that holds the
      object. The component never writes `id` or `body`. */
  class Post {
    const id: int
    var title: string
    const body: string

    constructor (id: int, title: string, body: string)
      ensures this.id == id && this.title == title && this.body == body
    {
      this.id := id;
      this.title := title;
      this.body := body;
    }

    /** `{ ...p }`: a new object with the same properties as `p`. */
    constructor Copy(p: Post)
      ensures id == p.id && title == p.title && body == p.body
    {
      id := p.id;
      title := p.title;
      body := p.body;
    }

    function Value(): PostValue
      reads this
    {
      PostValue(id, title, body)
    }
  }

  /** The list as the table renders it. */
  function Values(ps: seq<Post>): seq<PostValue>
    reads ps
  {
    seq(|ps|, i reads ps requires 0 <= i < |ps| => ps[i].Value())
  }

  function Ids(ps: seq<Post>): seq<int>
  {
    seq(|ps|, i requires 0 <= i < |ps| => ps[i].id)
  }

  /** No two entries share an id. */
  predicate DistinctIds(ps: seq<Post>)
  {
    forall i, j :: 0 <= i < j < |ps| ==> ps[i].id != ps[j].id
  }

  /** `r` is obtained from `s` by deleting elements (matched greedily, left to right). */
  predicate Subsequence<T(==)>(r: seq<T>, s: seq<T>)
    decreases |s|
  {
    r == [] ||
    (s != [] && if r[0] == s[0] then Subsequence(r[1..], s[1..]) else Subsequence(r, s[1..]))
  }

  /** `ps.filter(p => p.id !== id)`. */
  function WithoutId(ps: seq<Post>, id: int): (r: seq<Post>)
    ensures |r| <= |ps|
    ensures forall p :: p in r ==> p in ps && p.id != id
  {
    if ps == [] then []
    else if ps[0].id != id then [ps[0]] + WithoutId(ps[1..], id)
    else WithoutId(ps[1..], id)
  }

  /** Every entry with another id is kept, as often as it occurred. */
  lemma {:induction false} WithoutIdKeepsOthers(ps: seq<Post>, id: int, q: Post)
    requires q.id != id
    ensures multiset(WithoutId(ps, id))[q] == multiset(ps)[q]
  {
    if ps != [] {
      WithoutIdKeepsOthers(ps[1..], id, q);
      assert ps == [ps[0]] + ps[1..];
    }
  }

  /** The kept entries stay in their original relative order. */
  lemma {:induction false} WithoutIdInOrder(ps: seq<Post>, id: int)
    ensures Subsequence(WithoutId(ps, id), ps)
  {
    if ps != [] {
      WithoutIdInOrder(ps[1..], id);
      var r := WithoutId(ps, id);
      if ps[0].id != id {
        assert r[0] == ps[0] && r[1..] == WithoutId(ps[1..], id);
      } else if r != [] {
        assert r[0] in r;
      }
    }
  }

  /** Filtering leaves the list as it was exactly when no entry has the id. */
  lemma {:induction false} WithoutIdUnchangedIff(ps: seq<Post>, id: int)
    ensures WithoutId(ps, id) == ps <==> forall p :: p in ps ==> p.id != id
  {
    if ps != [] {
      WithoutIdUnchangedIff(ps[1..], id);
      if ps[0].id != id {
        assert ps == [ps[0]] + ps[1..];
      } else {
        assert |WithoutId(ps, id)| <= |ps[1..]| < |ps|;
      }
    }
  }

  /** Filtering keeps ids distinct. */
  lemma {:induction false} WithoutIdKeepsDistinct(ps: seq<Post>, id: int)
    requires DistinctIds(ps)
    ensures DistinctIds(WithoutId(ps, id))
  {
    if ps != [] {
      var tail := ps[1..];
      assert DistinctIds(tail) by {
        forall i, j | 0 <= i < j < |tail| ensures tail[i].id != tail[j].id {
          assert tail[i] == ps[i + 1] && tail[j] == ps[j + 1];
        }
      }
      WithoutIdKeepsDistinct(tail, id);
      if ps[0].id != id {
        var r := WithoutId(ps, id);
        forall j | 0 < j < |r| ensures r[0].id != r[j].id {
          assert r[j] in WithoutId(tail, id);
          var k :| 0 <= k < |tail| && tail[k] == r[j];
          assert tail[k] == ps[k + 1];
        }
      }
    }
  }

  /** `ps.indexOf(p)`: the first position holding the very object `p`, or -1. */
  function IndexOf(ps: seq<Post>, p: Post): (i: int)
    ensures -1 <= i < |ps|
    ensures i == -1 <==> p !in ps
    ensures 0 <= i ==> ps[i] == p && p !in ps[..i]
  {
    if ps == [] then -1
    else if ps[0] == p then 0
    else
      var k := IndexOf(ps[1..], p);
      if k == -1 then -1
      else
        assert ps[..k + 1] == [ps[0]] + ps[1..][..k];
        k + 1
  }

  /** Prepending keeps ids distinct exactly when the new id is not yet in the list. */
  lemma PrependDistinctIff(ps: seq<Post>, p: Post)
    ensures DistinctIds([p] + ps) <==> DistinctIds(ps) && p.id !in Ids(ps)
  {
    var qs := [p] + ps;
    if DistinctIds(qs) {
      forall i, j | 0 <= i < j < |ps| ensures ps[i].id != ps[j].id {
        assert qs[i + 1] == ps[i] && qs[j + 1] == ps[j];
      }
      forall k | 0 <= k < |ps| ensures Ids(ps)[k] != p.id {
        assert qs[0] == p && qs[k + 1] == ps[k];
      }
    }
    if DistinctIds(ps) && p.id !in Ids(ps) {
      forall i, j | 0 <= i < j < |qs| ensures qs[i].id != qs[j].id {
        if i == 0 {
          assert Ids(ps)[j - 1] == qs[j].id;
        } else {
          assert qs[i] == ps[i - 1] && qs[j] == ps[j - 1];
        }
      }
    }
  }
}
