/**
 * The list operations the refresh-token store performs on a user's
 * `refreshTokens` array: `filter(token => token !== t)` and
 * `find(token => token === t)`.
 */
module TokenLists {
  import opened Wrappers

  /** How many copies of `t` the list holds. */
  function Count(tokens: seq<string>, t: string): nat
  {
    multiset(tokens)[t]
  }

  /** `tokens.filter((token) => token !== t)`: every copy of `t` dropped, the rest kept. */
  function Without(tokens: seq<string>, t: string): (r: seq<string>)
    ensures t !in r
    ensures forall x :: x in r <==> x in tokens && x != t
    ensures forall x :: x != t ==> multiset(r)[x] == multiset(tokens)[x]
    ensures |r| == |tokens| - multiset(tokens)[t]
  {
    if tokens == [] then []
    else
      assert tokens == [tokens[0]] + tokens[1..];
      if tokens[0] == t then Without(tokens[1..], t)
      else [tokens[0]] + Without(tokens[1..], t)
  }

  /** `tokens.find((token) => token === t)`: the first equal entry, else `undefined`. */
  function FirstMatch(tokens: seq<string>, t: string): (r: Option<string>)
    ensures r.Some? <==> t in tokens
    ensures r.Some? ==> r.value == t
  {
    if tokens == [] then None
    else if tokens[0] == t then Some(tokens[0])
    else FirstMatch(tokens[1..], t)
  }

  /** Filtering distributes over concatenation, so the kept tokens stay in their original order. */
  lemma {:induction false} WithoutConcat(a: seq<string>, b: seq<string>, t: string)
    ensures Without(a + b, t) == Without(a, t) + Without(b, t)
  {
    if a == [] {
      assert a + b == b;
    } else {
      assert (a + b)[0] == a[0];
      assert (a + b)[1..] == a[1..] + b;
      WithoutConcat(a[1..], b, t);
    }
  }

  /** Filtering out a token that is not there gives back the very same list. */
  lemma {:induction false} WithoutAbsent(tokens: seq<string>, t: string)
    requires t !in tokens
    ensures Without(tokens, t) == tokens
  {
    if tokens != [] {
      assert tokens[0] != t;
      WithoutAbsent(tokens[1..], t);
      assert tokens == [tokens[0]] + tokens[1..];
    }
  }

  /** Filtering twice by the same token is filtering once. */
  lemma WithoutIdempotent(tokens: seq<string>, t: string)
    ensures Without(Without(tokens, t), t) == Without(tokens, t)
  {
    WithoutAbsent(Without(tokens, t), t);
  }

  /** Appending one token and then filtering another (the rotation order of operations). */
  lemma WithoutAfterAppend(tokens: seq<string>, added: string, t: string)
    ensures Without(tokens + [added], t) == Without(tokens, t) + (if added == t then [] else [added])
  {
    WithoutConcat(tokens, [added], t);
    assert [added] == [added] + [];
  }
}
