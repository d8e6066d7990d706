/** GET /logout of the user router: the requester's session tokens with the
    presented one filtered out. The user document is reduced to its list of
    session tokens. */
module UserRouter {
  import opened Text
  import opened Seqs

  /** The part of a User document that logout touches. */
  datatype Account = Account(tokens: seq<String>)

  /** `tokens.filter(token => token.token !== presented)`. Afterwards the
      presented token occurs nowhere, and every other token occurs exactly as
      often as before. */
  function Logout(user: Account, presented: String): (r: Account)
    ensures presented !in r.tokens
    ensures forall t :: t != presented ==> multiset(r.tokens)[t] == multiset(user.tokens)[t]
    ensures |r.tokens| == |user.tokens| - multiset(user.tokens)[presented]
  {
    var keep := (t: String) => t != presented;
    var kept := Filter(user.tokens, keep);
    FilterCounts(user.tokens, keep);
    assert multiset(kept)[presented] == 0;
    assert |multiset(user.tokens)| == |multiset(kept)| + multiset(user.tokens)[presented] by {
      assert multiset(user.tokens) == multiset(kept) + multiset{}[presented := multiset(user.tokens)[presented]];
    }
    Account(kept)
  }

  /** The surviving sessions keep their relative order: logging out of a list
      made of two parts is logging out of each part. */
  lemma {:induction false} LogoutKeepsOrder(a: seq<String>, b: seq<String>, presented: String)
    ensures Logout(Account(a + b), presented).tokens
      == Logout(Account(a), presented).tokens + Logout(Account(b), presented).tokens
  {
    FilterConcat(a, b, (t: String) => t != presented);
  }

  /** Logging out twice with the same token is logging out once. */
  lemma {:induction false} LogoutIdempotent(user: Account, presented: String)
    ensures Logout(Logout(user, presented), presented) == Logout(user, presented)
  {
    FilterIdempotent(user.tokens, (t: String) => t != presented);
  }

  /** A token the user does not hold leaves the session list unchanged. */
  lemma {:induction false} LogoutUnknownToken(user: Account, presented: String)
    requires presented !in user.tokens
    ensures Logout(user, presented) == user
  {
    FilterKeepsAll(user.tokens, (t: String) => t != presented);
  }
}
