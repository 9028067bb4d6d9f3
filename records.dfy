/**
 * A row of the social-media table once its Likes column is numeric: only the two
 * fields the box plot reads, the Platform and the number of Likes.
 */
module Records {

  datatype Record = Record(platform: string, likes: real)

  /** `rs.map(d => d.Likes)` */
  function Likes(rs: seq<Record>): seq<real>
  {
    seq(|rs|, i requires 0 <= i < |rs| => rs[i].likes)
  }

  /** `rs.map(d => d.Platform)` */
  function Platforms(rs: seq<Record>): seq<string>
  {
    seq(|rs|, i requires 0 <= i < |rs| => rs[i].platform)
  }

  lemma LikesOfConcat(a: seq<Record>, b: seq<Record>)
    ensures Likes(a + b) == Likes(a) + Likes(b)
  {
  }

  /** Removing the element at position j from a sequence takes one copy of it out of its multiset. */
  lemma MultisetRemove<T>(s: seq<T>, j: nat)
    requires j < |s|
    ensures multiset(s[..j] + s[j + 1..]) == multiset(s) - multiset{s[j]}
  {
    assert s == s[..j] + [s[j]] + s[j + 1..];
  }

  /** A value of the multiset of a sequence occurs at some position. */
  lemma PositionOf<T>(s: seq<T>, x: T) returns (j: nat)
    requires x in multiset(s)
    ensures j < |s| && s[j] == x
  {
    assert x in s;
    j :| 0 <= j < |s| && s[j] == x;
  }

  /** Removing the record at position j takes one copy of its Likes out of the multiset of Likes. */
  lemma LikesRemove(s: seq<Record>, j: nat)
    requires j < |s|
    ensures multiset(Likes(s)) == multiset(Likes(s[..j] + s[j + 1..])) + multiset{s[j].likes}
  {
    LikesOfConcat(s[..j], s[j + 1..]);
    LikesOfConcat(s[..j] + [s[j]], s[j + 1..]);
    LikesOfConcat(s[..j], [s[j]]);
    assert s == s[..j] + [s[j]] + s[j + 1..];
  }

  /** The first value of a occurs in b, and removing it from both leaves the same multisets. */
  lemma RemoveMatching<T>(a: seq<T>, b: seq<T>) returns (j: nat)
    requires multiset(a) == multiset(b) && |a| > 0
    ensures j < |b| && b[j] == a[0]
    ensures multiset(a[1..]) == multiset(b[..j] + b[j + 1..])
  {
    assert a[0] in multiset(a);
    j := PositionOf(b, a[0]);
    assert a[..0] + a[1..] == a[1..];
    MultisetRemove(a, 0);
    MultisetRemove(b, j);
  }

  /**
   * One step of matching two arrangements of the same records: the first record of a occurs
   * in b, and removing it from both leaves two arrangements of the same records again.
   */
  lemma MatchFirst(a: seq<Record>, b: seq<Record>) returns (b': seq<Record>)
    requires multiset(a) == multiset(b) && |a| > 0
    ensures multiset(a[1..]) == multiset(b')
    ensures multiset(Likes(a)) == multiset(Likes(a[1..])) + multiset{a[0].likes}
    ensures multiset(Likes(b)) == multiset(Likes(b')) + multiset{a[0].likes}
  {
    var j := RemoveMatching(a, b);
    b' := b[..j] + b[j + 1..];
    LikesRemove(a, 0);
    assert a[..0] + a[1..] == a[1..];
    LikesRemove(b, j);
  }

  /** Reordering the records reorders their Likes: the multiset of values is the same. */
  lemma {:induction false} LikesOfPermutation(a: seq<Record>, b: seq<Record>)
    requires multiset(a) == multiset(b)
    ensures multiset(Likes(a)) == multiset(Likes(b))
    decreases |a|
  {
    if |a| == 0 {
      assert |b| == |multiset(b)| == 0;
    } else {
      var b' := MatchFirst(a, b);
      LikesOfPermutation(a[1..], b');
    }
  }
}
