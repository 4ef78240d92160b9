/** Why something that is served fairly comes to an end: the argument that the endless runs of
    modules PassiveReader and HandoffEnds share. */
module Liveness {
  datatype Rank = Rank(a: nat, b: nat, c: nat, d: nat, e: nat)

  // Lexicographic, so well-founded.
  predicate Below(r: Rank, s: Rank) {
    || r.a < s.a
    || (r.a == s.a && (r.b < s.b
                       || (r.b == s.b && (r.c < s.c
                                          || (r.c == s.c && (r.d < s.d || (r.d == s.d && r.e < s.e)))))))
  }

  // Step i ends it, or takes the rank down, or leaves things as they are: then what is awaited
  // was not done, and stays awaited.
  ghost predicate Proceeds(rank: nat -> Rank, over: nat -> bool, done: (nat, nat) -> bool, i: nat) {
    || over(i) || over(i + 1) || Below(rank(i + 1), rank(i))
    || (rank(i + 1) == rank(i) && !done(i, i) && forall j :: done(i, j) ==> done(i + 1, j))
  }

  // What is awaited at i is done at some later j.
  ghost predicate Answered(over: nat -> bool, done: (nat, nat) -> bool, i: nat) {
    over(i) || exists j: nat :: i <= j && done(i, j)
  }

  lemma {:induction false} Reaches(rank: nat -> Rank, over: nat -> bool, done: (nat, nat) -> bool, i: nat, j: nat)
      returns (k: nat)
    requires forall n: nat :: i <= n ==> Proceeds(rank, over, done, n) && Answered(over, done, n)
    requires over(i) || (i <= j && done(i, j))
    ensures i <= k && over(k)
    decreases rank(i).a, rank(i).b, rank(i).c, rank(i).d, rank(i).e, j - i
  {
    assert Proceeds(rank, over, done, i) && Answered(over, done, i + 1);
    if over(i) {
      k := i;
    } else if over(i + 1) {
      k := i + 1;
    } else if Below(rank(i + 1), rank(i)) {
      var j': nat :| i + 1 <= j' && done(i + 1, j');
      k := Reaches(rank, over, done, i + 1, j');
    } else {
      k := Reaches(rank, over, done, i + 1, j);
    }
  }

  // If every step proceeds and everything awaited is answered, it is over some time.
  lemma Ends(rank: nat -> Rank, over: nat -> bool, done: (nat, nat) -> bool, i: nat) returns (k: nat)
    requires forall n: nat :: i <= n ==> Proceeds(rank, over, done, n) && Answered(over, done, n)
    ensures i <= k && over(k)
  {
    assert Answered(over, done, i);
    var j: nat :| over(i) || (i <= j && done(i, j));
    k := Reaches(rank, over, done, i, j);
  }
}
