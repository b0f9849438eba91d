/**
 Refresh-token families: every sign-in starts a family, every refresh replaces
 the presented token by the next one of its family, and presenting a token that
 was already replaced or revoked ends the whole family (section 4.14.2 of RFC 9700),
 unless it has expired: an expired token is refused before the table is read.
 */
module RefreshTokens {
  import opened Common

  /**
   A stored token; its identifier is its place in the table, which is the order
   of issue, and `expires` is also the expiry the token itself claims.
   */
  datatype Token = Token(user: nat, family: nat, revoked: bool, replacedBy: Option<nat>, expires: int)

  /** The token table and the number of families handed out so far. */
  datatype Vault = Vault(tokens: seq<Token>, families: nat)

  /** What a caller presents; `presented` and `family` are the claims of a decoded token. */
  datatype Event =
    | Login(user: nat, accepted: bool, expires: int)
    | Refresh(presented: nat, family: nat, now: int, active: bool, expires: int)
    | Logout(presented: nat, now: int)

  datatype Outcome = Issued(token: nat) | InvalidCredentials | InvalidToken | Reuse | Done

  const NO_TOKENS := Vault([], 0)

  predicate Stored(tokens: seq<Token>, presented: nat, family: nat) {
    presented < |tokens| && tokens[presented].family == family
  }

  /** A stored token presented after its expiry is not even decoded, so the check of the stored expiry never decides. */
  predicate Expired(tokens: seq<Token>, presented: nat, now: int) {
    presented < |tokens| && tokens[presented].expires <= now
  }

  predicate Used(t: Token) {
    t.revoked || t.replacedBy.Some?
  }

  function Revoked(tokens: seq<Token>, family: nat): (r: seq<Token>)
    ensures |r| == |tokens|
    ensures forall i :: 0 <= i < |r| ==>
      r[i] == tokens[i].(revoked := tokens[i].revoked || tokens[i].family == family)
  {
    seq(|tokens|, i requires 0 <= i < |tokens| => tokens[i].(revoked := tokens[i].revoked || tokens[i].family == family))
  }

  function Rotated(tokens: seq<Token>, presented: nat, expires: int): seq<Token>
    requires presented < |tokens|
  {
    var t := tokens[presented];
    tokens[presented := t.(revoked := true, replacedBy := Some(|tokens|))] + [Token(t.user, t.family, false, None, expires)]
  }

  function Step(v: Vault, e: Event): (Vault, Outcome) {
    match e
    case Login(user, accepted, expires) =>
      if accepted then
        (Vault(v.tokens + [Token(user, v.families, false, None, expires)], v.families + 1), Issued(|v.tokens|))
      else
        (v, InvalidCredentials)
    case Refresh(presented, family, now, active, expires) =>
      if Expired(v.tokens, presented, now) || !Stored(v.tokens, presented, family) then (v, InvalidToken)
      else if Used(v.tokens[presented]) then (v.(tokens := Revoked(v.tokens, family)), Reuse)
      else if !active then (v, InvalidToken)
      else (v.(tokens := Rotated(v.tokens, presented, expires)), Issued(|v.tokens|))
    case Logout(presented, now) =>
      if Expired(v.tokens, presented, now) then (v, InvalidToken)
      else if presented < |v.tokens| then
        (v.(tokens := v.tokens[presented := v.tokens[presented].(revoked := true)]), Done)
      else
        (v, Done)
  }

  function Run(v: Vault, events: seq<Event>): Vault {
    if events == [] then v else Step(Run(v, events[..|events| - 1]), events[|events| - 1]).0
  }

  // ----- what every step keeps

  /** A replaced token is revoked and points to the next token of its family; an unreplaced one is the last of its family. */
  predicate Linked(tokens: seq<Token>, i: nat)
    requires i < |tokens|
  {
    match tokens[i].replacedBy
    case None => forall k :: i < k < |tokens| ==> tokens[k].family != tokens[i].family
    case Some(next) =>
      && tokens[i].revoked
      && i < next < |tokens| && tokens[next].family == tokens[i].family && tokens[next].user == tokens[i].user
      && forall k :: i < k < next ==> tokens[k].family != tokens[i].family
  }

  ghost predicate Inv(v: Vault) {
    forall i :: 0 <= i < |v.tokens| ==> v.tokens[i].family < v.families && Linked(v.tokens, i)
  }

  lemma StepKeeps(v: Vault, e: Event)
    requires Inv(v)
    ensures Inv(Step(v, e).0)
  {
    match e
    case Login(user, accepted, expires) =>
      if accepted {
        LoginKeeps(v, user, expires);
      }
    case Refresh(presented, family, now, active, expires) =>
      if Step(v, e).1.Issued? {
        RotationKeeps(v, presented, expires);
      } else if Step(v, e).1 == Reuse {
        RevocationKeeps(v, Revoked(v.tokens, family));
      }
    case Logout(presented, now) =>
      if Step(v, e).1 == Done {
        RevocationKeeps(v, Step(v, e).0.tokens);
      }
  }

  lemma LoginKeeps(v: Vault, user: nat, expires: int)
    requires Inv(v)
    ensures Inv(Vault(v.tokens + [Token(user, v.families, false, None, expires)], v.families + 1))
  {
    var after := v.tokens + [Token(user, v.families, false, None, expires)];
    forall i | 0 <= i < |after| ensures after[i].family < v.families + 1 && Linked(after, i) {
      assert i < |v.tokens| ==> Linked(v.tokens, i);
    }
  }

  /** Nothing but marks of revocation has been added. */
  lemma RevocationKeeps(v: Vault, after: seq<Token>)
    requires Inv(v) && |after| == |v.tokens|
    requires forall i :: 0 <= i < |after| ==> after[i] == v.tokens[i] || after[i] == v.tokens[i].(revoked := true)
    ensures Inv(v.(tokens := after))
  {
    forall i | 0 <= i < |after| ensures after[i].family < v.families && Linked(after, i) {
      assert Linked(v.tokens, i);
    }
  }

  lemma RotationKeeps(v: Vault, presented: nat, expires: int)
    requires Inv(v) && presented < |v.tokens| && v.tokens[presented].replacedBy == None
    ensures Inv(v.(tokens := Rotated(v.tokens, presented, expires)))
  {
    var after := Rotated(v.tokens, presented, expires);
    assert Linked(v.tokens, presented);
    forall i | 0 <= i < |after| ensures after[i].family < v.families && Linked(after, i) {
      assert i < |v.tokens| ==> Linked(v.tokens, i);
    }
  }

  lemma {:induction false} RunKeeps(v: Vault, events: seq<Event>)
    requires Inv(v)
    ensures Inv(Run(v, events))
  {
    if events != [] {
      RunKeeps(v, events[..|events| - 1]);
      StepKeeps(Run(v, events[..|events| - 1]), events[|events| - 1]);
    }
  }

  // ----- families are chains

  /** The identifiers of a family in order of issue. */
  function Members(tokens: seq<Token>, family: nat): seq<nat> {
    if tokens == [] then []
    else
      var front := Members(tokens[..|tokens| - 1], family);
      if tokens[|tokens| - 1].family == family then front + [|tokens| - 1] else front
  }

  lemma {:induction false} MembersAre(tokens: seq<Token>, family: nat)
    ensures forall i: nat :: i in Members(tokens, family) <==> i < |tokens| && tokens[i].family == family
    ensures forall a, b :: 0 <= a < b < |Members(tokens, family)| ==> Members(tokens, family)[a] < Members(tokens, family)[b]
  {
    if tokens != [] {
      var front := tokens[..|tokens| - 1];
      MembersAre(front, family);
      assert forall i: nat :: i < |front| ==> front[i] == tokens[i];
      assert forall a :: 0 <= a < |Members(front, family)| ==> Members(front, family)[a] in Members(front, family);
    }
  }

  /** Token number `a` of the family was replaced by the next one, or is the last and was not replaced. */
  predicate ChainedAt(tokens: seq<Token>, chain: seq<nat>, a: nat)
    requires a < |chain|
  {
    && chain[a] < |tokens|
    && tokens[chain[a]].replacedBy == (if a + 1 < |chain| then Some(chain[a + 1]) else None)
    && (a + 1 < |chain| ==> tokens[chain[a]].revoked)
  }

  /** In every reachable table a family is one replacement chain: each token but the last was replaced by the next one. */
  lemma FamilyIsAChain(events: seq<Event>, family: nat)
    ensures var tokens := Run(NO_TOKENS, events).tokens; var chain := Members(tokens, family);
      forall a :: 0 <= a < |chain| ==> ChainedAt(tokens, chain, a)
  {
    RunKeeps(NO_TOKENS, events);
    var tokens := Run(NO_TOKENS, events).tokens;
    var chain := Members(tokens, family);
    hide Run, Members, ChainedAt;
    forall a | 0 <= a < |chain| ensures ChainedAt(tokens, chain, a) {
      MembersAre(tokens, family);
      assert chain[a] in chain;
      NextInChain(tokens, chain, family, a);
    }
  }

  lemma NextInChain(tokens: seq<Token>, chain: seq<nat>, family: nat, a: nat)
    requires a < |chain| && chain[a] < |tokens| && tokens[chain[a]].family == family && Linked(tokens, chain[a])
    requires forall i: nat :: i in chain <==> i < |tokens| && tokens[i].family == family
    requires forall b, c :: 0 <= b < c < |chain| ==> chain[b] < chain[c]
    ensures ChainedAt(tokens, chain, a)
  {
    assert a + 1 < |chain| ==> chain[a + 1] in chain;
    if tokens[chain[a]].replacedBy.Some? {
      assert tokens[chain[a]].replacedBy.value in chain;
    }
  }

  /** At most one token of a family is live, and it is the newest. */
  lemma OnlyTheNewestIsLive(v: Vault, i: nat, j: nat)
    requires Inv(v) && i < |v.tokens| && j < |v.tokens|
    requires !v.tokens[i].revoked && v.tokens[j].family == v.tokens[i].family
    ensures j <= i && (j < i ==> v.tokens[j].revoked)
  {
    assert Linked(v.tokens, i) && Linked(v.tokens, j);
  }

  // ----- reuse

  predicate Dead(tokens: seq<Token>, family: nat) {
    forall i :: 0 <= i < |tokens| && tokens[i].family == family ==> tokens[i].revoked
  }

  /** A family without a live token stays without one, and no token is ever added to it. */
  lemma {:induction false} DeadFamilyStaysDead(v: Vault, events: seq<Event>, family: nat)
    requires Dead(v.tokens, family) && family < v.families
    ensures Dead(Run(v, events).tokens, family)
    ensures Members(Run(v, events).tokens, family) == Members(v.tokens, family)
    ensures Run(v, events).families >= v.families
  {
    if events != [] {
      DeadFamilyStaysDead(v, events[..|events| - 1], family);
      var before := Run(v, events[..|events| - 1]);
      StepLeavesDead(before, events[|events| - 1], family);
    }
  }

  lemma StepLeavesDead(v: Vault, e: Event, family: nat)
    requires Dead(v.tokens, family) && family < v.families
    ensures Dead(Step(v, e).0.tokens, family)
    ensures Members(Step(v, e).0.tokens, family) == Members(v.tokens, family)
    ensures Step(v, e).0.families >= v.families
  {
    var after := Step(v, e).0.tokens;
    if |after| == |v.tokens| {
      SameFamilies(v.tokens, after, family);
    } else {
      assert |after| == |v.tokens| + 1;
      SameFamilies(v.tokens, after[..|v.tokens|], family);
    }
  }

  lemma {:induction false} SameFamilies(tokens: seq<Token>, others: seq<Token>, family: nat)
    requires |tokens| == |others|
    requires forall i :: 0 <= i < |tokens| ==> tokens[i].family == others[i].family
    ensures Members(tokens, family) == Members(others, family)
  {
    if tokens != [] {
      SameFamilies(tokens[..|tokens| - 1], others[..|others| - 1], family);
    }
  }

  /** Once detected, reuse ends the family for good: no live token is left and no later call makes one. */
  lemma ReuseEndsFamily(v: Vault, e: Event, later: seq<Event>)
    requires Inv(v) && e.Refresh? && Step(v, e).1 == Reuse
    ensures var after := Step(v, e).0;
      && Dead(Run(after, later).tokens, e.family)
      && Members(Run(after, later).tokens, e.family) == Members(v.tokens, e.family)
  {
    var after := Step(v, e).0;
    SameFamilies(v.tokens, after.tokens, e.family);
    DeadFamilyStaysDead(after, later, e.family);
  }

  /** A token that was used stays used, in its family and with its expiry. */
  lemma {:induction false} UsedStaysUsed(v: Vault, events: seq<Event>, i: nat)
    requires i < |v.tokens| && Used(v.tokens[i])
    ensures i < |Run(v, events).tokens| && Used(Run(v, events).tokens[i])
    ensures Run(v, events).tokens[i].family == v.tokens[i].family
    ensures Run(v, events).tokens[i].expires == v.tokens[i].expires
  {
    if events != [] {
      UsedStaysUsed(v, events[..|events| - 1], i);
    }
  }

  /**
   No token rotates twice: whoever comes second, after whatever happened in
   between, ends the family for both if the token has not expired by then, and
   changes nothing otherwise.
   */
  lemma ReplayEndsFamily(v: Vault, first: Event, between: seq<Event>, second: Event, later: seq<Event>)
    requires Inv(v) && first.Refresh? && Step(v, first).1.Issued?
    requires second.Refresh? && second.presented == first.presented && second.family == first.family
    ensures var reached := Run(Step(v, first).0, between); var expires := v.tokens[first.presented].expires;
      && (Step(reached, second).1 == Reuse <==> second.now < expires)
      && (second.now < expires ==> Dead(Run(Step(reached, second).0, later).tokens, first.family))
      && (expires <= second.now ==> Step(reached, second) == (reached, InvalidToken))
  {
    var after := Step(v, first).0;
    UsedStaysUsed(after, between, first.presented);
    StepKeeps(v, first);
    RunKeeps(after, between);
    if second.now < v.tokens[first.presented].expires {
      ReuseEndsFamily(Run(after, between), second, later);
    }
  }

  /** A replay that comes after the expiry goes unnoticed: the successor stays live. */
  lemma AnExpiredReplayGoesUnnoticed(user: nat)
    ensures var events := [Login(user, true, 100), Refresh(0, 0, 1, true, 200)];
      var v := Run(NO_TOKENS, events);
      && |v.tokens| == 2 && Used(v.tokens[0])
      && Step(v, Refresh(0, 0, 100, true, 300)) == (v, InvalidToken)
      && Step(v, Refresh(1, 0, 101, true, 300)).1 == Issued(2)
  {
    SignedInAndRefreshed(user);
  }

  lemma SignedInAndRefreshed(user: nat)
    ensures Run(NO_TOKENS, [Login(user, true, 100), Refresh(0, 0, 1, true, 200)]) ==
      Vault([Token(user, 0, true, Some(1), 100), Token(user, 0, false, None, 200)], 1)
  {
    var events := [Login(user, true, 100), Refresh(0, 0, 1, true, 200)];
    assert events[..1] == [events[0]] && events[..1][..0] == [];
    var one := Vault([Token(user, 0, false, None, 100)], 1);
    assert Run(NO_TOKENS, events[..1]) == Step(NO_TOKENS, events[0]).0 == one;
    assert Step(one, events[1]).0.tokens == [Token(user, 0, true, Some(1), 100), Token(user, 0, false, None, 200)];
  }

  /** An accepted sign-in adds one live token of the user, with the expiry it was given, in a family of its own; a refused one does nothing. */
  lemma LoginStartsAFamily(v: Vault, e: Event)
    requires Inv(v) && e.Login?
    ensures var r := Step(v, e);
      if e.accepted
      then
        && r.1 == Issued(|v.tokens|) && |r.0.tokens| == |v.tokens| + 1 && r.0.tokens[..|v.tokens|] == v.tokens
        && var issued := r.0.tokens[|v.tokens|];
        && issued.user == e.user && issued.expires == e.expires && !issued.revoked && issued.replacedBy == None
        && forall i :: 0 <= i < |v.tokens| ==> v.tokens[i].family != issued.family
      else r == (v, InvalidCredentials)
  {
  }

  /** What a refresh needs to succeed, and that it then keeps the user and the family. */
  lemma RefreshSucceedsIff(v: Vault, e: Event)
    requires Inv(v) && e.Refresh?
    ensures Step(v, e).1.Issued? <==>
      && Stored(v.tokens, e.presented, e.family) && !v.tokens[e.presented].revoked
      && e.now < v.tokens[e.presented].expires && e.active
    ensures Step(v, e).1.Issued? ==> var after := Step(v, e).0.tokens;
      && after[|v.tokens|] == Token(v.tokens[e.presented].user, e.family, false, None, e.expires)
      && forall i :: 0 <= i < |v.tokens| && i != e.presented ==> after[i] == v.tokens[i]
  {
    if e.presented < |v.tokens| {
      assert Linked(v.tokens, e.presented);
    }
  }

  /** Signing out ends the session exactly when the newest token is presented before it expires; any other leaves it running. */
  lemma LogoutEndsFamilyIff(v: Vault, presented: nat, now: int)
    requires Inv(v) && presented < |v.tokens| && !Dead(v.tokens, v.tokens[presented].family)
    ensures Dead(Step(v, Logout(presented, now)).0.tokens, v.tokens[presented].family) <==>
      v.tokens[presented].replacedBy == None && now < v.tokens[presented].expires
  {
    var family := v.tokens[presented].family;
    var live :| 0 <= live < |v.tokens| && v.tokens[live].family == family && !v.tokens[live].revoked;
    assert Linked(v.tokens, live) && Linked(v.tokens, presented);
    var after := Step(v, Logout(presented, now)).0.tokens;
    if live != presented || v.tokens[presented].expires <= now {
      assert after[live] == v.tokens[live];
      OnlyTheNewestIsLive(v, live, presented);
    } else {
      forall i | 0 <= i < |after| && after[i].family == family ensures after[i].revoked {
        OnlyTheNewestIsLive(v, live, i);
      }
    }
  }

  /** Signing out with the first token after a refresh, or with the newest after its expiry, leaves the family live. */
  lemma SigningOutCanRevokeNothing(user: nat)
    ensures var v := Run(NO_TOKENS, [Login(user, true, 100), Refresh(0, 0, 1, true, 200)]);
      && !Dead(v.tokens, 0)
      && Step(v, Logout(0, 2)) == (v, Done)
      && Step(v, Logout(1, 200)) == (v, InvalidToken)
      && Step(Step(v, Logout(0, 2)).0, Refresh(1, 0, 3, true, 300)).1 == Issued(2)
  {
    SignedInAndRefreshed(user);
    var v := Run(NO_TOKENS, [Login(user, true, 100), Refresh(0, 0, 1, true, 200)]);
    assert v.tokens[1].family == 0 && !v.tokens[1].revoked;
    assert Step(v, Logout(0, 2)).0.tokens == v.tokens;
  }

  // ----- the service

  class TokenService {
    var tokens: seq<Token>
    var families: nat

    ghost function View(): Vault
      reads this
    {
      Vault(tokens, families)
    }

    constructor ()
      ensures View() == NO_TOKENS
    {
      tokens, families := [], 0;
    }

    method Add(user: nat, family: nat, expires: int) returns (id: nat)
      modifies this`tokens
      ensures id == old(|tokens|) && tokens == old(tokens) + [Token(user, family, false, None, expires)]
    {
      id := |tokens|;
      tokens := tokens + [Token(user, family, false, None, expires)];
    }

    method RevokeFamily(family: nat)
      modifies this`tokens
      ensures tokens == Revoked(old(tokens), family)
    {
      var before := tokens;
      tokens := seq(|before|, i requires 0 <= i < |before| =>
        if before[i].family == family && !before[i].revoked then before[i].(revoked := true) else before[i]);
    }

    method Login(user: nat, accepted: bool, expires: int) returns (r: Outcome)
      modifies this
      ensures (View(), r) == Step(old(View()), Event.Login(user, accepted, expires))
    {
      if !accepted {
        return InvalidCredentials;
      }
      var family := families;
      families := families + 1;
      var id := Add(user, family, expires);
      r := Issued(id);
    }

    method Refresh(presented: nat, family: nat, now: int, active: bool, expires: int) returns (r: Outcome)
      modifies this
      ensures (View(), r) == Step(old(View()), Event.Refresh(presented, family, now, active, expires))
    {
      if Expired(tokens, presented, now) {
        return InvalidToken;
      }
      if presented >= |tokens| || tokens[presented].family != family {
        return InvalidToken;
      }
      var stored := tokens[presented];
      if stored.revoked || stored.replacedBy.Some? {
        RevokeFamily(stored.family);
        return Reuse;
      }
      if stored.expires <= now || !active {
        return InvalidToken;
      }
      var id := Add(stored.user, family, expires);
      tokens := tokens[presented := stored.(revoked := true, replacedBy := Some(id))];
      assert tokens == Rotated(old(tokens), presented, expires);
      r := Issued(id);
    }

    method Logout(presented: nat, now: int) returns (r: Outcome)
      modifies this
      ensures (View(), r) == Step(old(View()), Event.Logout(presented, now))
    {
      if Expired(tokens, presented, now) {
        return InvalidToken;
      }
      if presented < |tokens| && !tokens[presented].revoked {
        tokens := tokens[presented := tokens[presented].(revoked := true)];
      }
      assert presented < |tokens| ==> tokens == old(tokens)[presented := old(tokens)[presented].(revoked := true)];
      r := Done;
    }
  }
}
