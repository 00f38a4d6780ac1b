/** Cutting and joining lists. */
module Lists {

  lemma Around<T>(l: seq<T>, i: nat)
    requires i < |l|
    ensures l[i..][0] == l[i] && l[i..][1..] == l[i + 1..] && l[..i + 1] == l[..i] + [l[i]]
  {
  }

  lemma Joined<T>(a: seq<T>, b: seq<T>)
    ensures (a + b)[..|a|] == a && (a + b)[|a|..] == b
  {
  }

  lemma ConsJoined<T>(a: seq<T>, b: seq<T>)
    requires a != []
    ensures (a + b)[0] == a[0] && (a + b)[1..] == a[1..] + b
  {
  }

  lemma Assoc<T>(a: seq<T>, b: seq<T>, c: seq<T>)
    ensures a + (b + c) == (a + b) + c
  {
  }

  lemma Whole<T>(l: seq<T>)
    ensures l[..0] == [] && l[0..] == l && l[..|l|] == l && l[|l|..] == []
  {
  }

  lemma AndNothing<T>(l: seq<T>)
    ensures [] + l == l && l + [] == l
  {
  }

  /** Taking an element out of the rest of a list, and out of the list. */
  lemma TakenOut<T>(l: seq<T>, i: nat)
    requires 0 < i < |l|
    ensures [l[0]] + (l[1..][..i - 1] + l[1..][i..]) == l[..i] + l[i + 1..]
  {
    var one: seq<T>, rest := [l[0]], l[1..];
    assert rest[..i - 1] == l[1..i] && rest[i..] == l[i + 1..];
    assert one + l[1..i] == l[..i];
  }
}
