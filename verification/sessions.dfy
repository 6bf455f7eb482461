/**
 * The session store as a value: each user's list of live refresh tokens,
 * and the two changes the store makes to it.
 */
module Sessions {
  import opened Users
  import opened TokenLists

  /** `user.refreshTokens.push(t)` on user `id`, nothing else changed. */
  function Pushed(users: map<UserId, User>, id: UserId, t: string): (r: map<UserId, User>)
    requires id in users
    ensures r.Keys == users.Keys
    ensures forall u :: u in users && u != id ==> r[u] == users[u]
  {
    users[id := users[id].(refreshTokens := users[id].refreshTokens + [t])]
  }

  /** `user.refreshTokens = user.refreshTokens.filter(...)` on user `id`, nothing else changed. */
  function Filtered(users: map<UserId, User>, id: UserId, t: string): (r: map<UserId, User>)
    requires id in users
    ensures r.Keys == users.Keys
    ensures forall u :: u in users && u != id ==> r[u] == users[u]
  {
    users[id := users[id].(refreshTokens := Without(users[id].refreshTokens, t))]
  }

  /** A refresh token is live for a user when the user's list holds it. */
  predicate Live(users: map<UserId, User>, id: UserId, t: string)
  {
    id in users && t in users[id].refreshTokens
  }

  /** Saving a token makes it live, keeps every earlier session live, and adds exactly one entry. */
  lemma PushedKeepsSessions(users: map<UserId, User>, id: UserId, t: string, other: string)
    requires id in users
    ensures Live(Pushed(users, id, t), id, t)
    ensures Live(users, id, other) ==> Live(Pushed(users, id, t), id, other)
    ensures Count(Pushed(users, id, t)[id].refreshTokens, t) == Count(users[id].refreshTokens, t) + 1
    ensures Pushed(users, id, t)[id].refreshTokens[..|users[id].refreshTokens|] == users[id].refreshTokens
  {
  }

  /** Removing a token revokes it and only it: other tokens keep their multiplicity and order. */
  lemma {:induction false} FilteredRevokesOnly(users: map<UserId, User>, id: UserId, t: string, other: string)
    requires id in users
    ensures !Live(Filtered(users, id, t), id, t)
    ensures other != t ==> (Live(Filtered(users, id, t), id, other) <==> Live(users, id, other))
    ensures other != t ==> Count(Filtered(users, id, t)[id].refreshTokens, other) == Count(users[id].refreshTokens, other)
  {
  }

  /** Removing the same token twice is removing it once (sign-out is idempotent). */
  lemma FilteredIdempotent(users: map<UserId, User>, id: UserId, t: string)
    requires id in users
    ensures Filtered(Filtered(users, id, t), id, t) == Filtered(users, id, t)
  {
    WithoutIdempotent(users[id].refreshTokens, t);
  }

  /** Removing a token that is not live changes nothing. */
  lemma FilteredAbsent(users: map<UserId, User>, id: UserId, t: string)
    requires id in users && !Live(users, id, t)
    ensures Filtered(users, id, t) == users
  {
    WithoutAbsent(users[id].refreshTokens, t);
  }

  /**
   * Rotation appends the new token and then removes the presented one:
   * the user's list becomes the old list without the presented token,
   * followed by the new token unless it equals the presented one.
   */
  lemma RotationResult(users: map<UserId, User>, id: UserId, presented: string, added: string)
    requires id in users
    ensures Filtered(Pushed(users, id, added), id, presented)[id].refreshTokens
         == Without(users[id].refreshTokens, presented) + (if added == presented then [] else [added])
  {
    WithoutAfterAppend(users[id].refreshTokens, added, presented);
  }

  /** After a rotation to a different token, the presented token is dead and the new one live. */
  lemma RotationRevokesPresented(users: map<UserId, User>, id: UserId, presented: string, added: string)
    requires id in users && added != presented
    ensures !Live(Filtered(Pushed(users, id, added), id, presented), id, presented)
    ensures Live(Filtered(Pushed(users, id, added), id, presented), id, added)
  {
    RotationResult(users, id, presented, added);
  }

  /** When the re-signed token string equals the presented one, the rotation leaves no copy of it. */
  lemma RotationToSameTokenRevokesSession(users: map<UserId, User>, id: UserId, presented: string)
    requires id in users
    ensures !Live(Filtered(Pushed(users, id, presented), id, presented), id, presented)
    ensures |Filtered(Pushed(users, id, presented), id, presented)[id].refreshTokens|
         == |users[id].refreshTokens| - Count(users[id].refreshTokens, presented)
  {
    RotationResult(users, id, presented, presented);
  }

  /** Tokens other than the presented and the new one keep their multiplicity through a rotation. */
  lemma RotationKeepsOtherSessions(users: map<UserId, User>, id: UserId, presented: string, added: string, other: string)
    requires id in users && other != presented && other != added
    ensures Count(Filtered(Pushed(users, id, added), id, presented)[id].refreshTokens, other)
         == Count(users[id].refreshTokens, other)
  {
    RotationResult(users, id, presented, added);
  }
}
