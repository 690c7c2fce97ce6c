/**
 The gap between checking a token and reserving its id. A confirmation that passes the token
 check in time but reserves after the reservation it meets has run out is acknowledged a
 second time; the theorems on acknowledgements therefore count timely reservations. This
 also shows that behaviours with acknowledged updates exist.
 */
module LateReservation {
  import opened Wrappers
  import opened ChallengeSpec
  import opened Reservations
  import opened ResetProtocol
  import opened ResetInvariant
  import opened ResetTheorems

  /**
   What a confirmation meets that tries to reserve an id somebody holds: it is refused until
   the token's expiry, and gets through exactly when the stored reservation has run out.
   */
  lemma {:induction false} ReservingAHeldToken(
      cfg: Config, states: seq<State>, actions: seq<Action>, n: nat, holder: nat, task: nat, later: real)
    requires Behaviour(cfg, states, actions) && n < |states|
    requires var s := states[n];
             && holder in s.confirms && Holds(s.confirms[holder])
             && task in s.confirms && s.confirms[task].Timed?
             && s.confirms[task].claims.jti == s.confirms[holder].claims.jti
             && later >= s.now
    ensures var s, claims := states[n], states[n].confirms[task].claims;
            var late := s.(now := later);
            && StepEnabled(late, task, Reserve(false))
            && var phase := StepEffect(late, task, Reserve(false)).phase;
            && (phase.Calling? <==> claims.jti !in s.reservations || s.reservations[claims.jti] <= later)
            && (phase.Calling? ==> later >= claims.exp as real && !phase.timely)
  {
    var s := states[n];
    Reachable(cfg, states, actions, n);
    SameClaims(s.confirms, s.tokens, s.now, holder, task);
    assert Secured(s.confirms[holder].claims, s.reservations, s.now);
  }

  const OWNER: Identity := Identity(Account(FarmOwner, 1), "owner@farm")

  /** From nothing to a minted token, at time 0. */
  lemma {:induction false} TokenMinted(cfg: Config) returns (states: seq<State>, actions: seq<Action>)
    requires cfg.maxAttempts >= 1 && cfg.ttl >= 1 && cfg.tokenTtl >= 1
    ensures Behaviour(cfg, states, actions)
    ensures var s := states[|actions|];
            && s.now == 0.0 && s.confirms == map[] && s.reservations == map[]
            && "t" in s.tokens && s.tokens["t"].claims == OwnerClaims(cfg)
  {
    states, actions := [Init(0.0)], [];
    states, actions := Extend(cfg, states, actions, Start([OWNER], "c", "123456", 0.0));
    assert Resettable([OWNER]) == [OWNER];
    var issued := ResetRecord("c", cfg.normalize(OWNER.email), OWNER.account, "123456", cfg.ttl, 0.0);
    assert states[|actions|].challenges == map["c" := issued];
    states, actions := Extend(cfg, states, actions, Verify(0, "c", OWNER.email, "123456", 0.0));
    assert states[|actions|].pending == map[0 := Pending(issued, 1)];
    states, actions := Extend(cfg, states, actions, Mint(0, "t"));
  }

  function OwnerClaims(cfg: Config): Claims {
    Claims(cfg.normalize(OWNER.email), OWNER.account, "t", 0, cfg.tokenTtl)
  }

  lemma {:induction false} Step(cfg: Config, states: seq<State>, actions: seq<Action>, task: nat, step: ConfirmStep)
    returns (states': seq<State>, actions': seq<Action>)
    requires Behaviour(cfg, states, actions) && StepEnabled(states[|actions|], task, step)
    ensures Behaviour(cfg, states', actions') && |actions'| == |actions| + 1
    ensures states'[|actions'|] == DoConfirm(states[|actions|], task, step)
  {
    states', actions' := Extend(cfg, states, actions, Confirm(task, step));
  }

  /** Two confirmations pass the token check; the first is acknowledged in time. */
  lemma {:induction false} FirstAcknowledgement(cfg: Config) returns (states: seq<State>, actions: seq<Action>, i: nat)
    requires cfg.maxAttempts >= 1 && cfg.ttl >= 1 && cfg.tokenTtl >= 1
    ensures Behaviour(cfg, states, actions)
    ensures var s := states[|actions|];
            && i < |s.trace| && s.trace[i] == Acked(1, OwnerClaims(cfg), true)
            && s.now == 0.0 && s.reservations == map["t" := cfg.tokenTtl as real]
            && 2 in s.confirms && s.confirms[2] == Timed(OwnerClaims(cfg), 0.0, cfg.tokenTtl)
  {
    var claims := OwnerClaims(cfg);
    states, actions := TokenMinted(cfg);
    states, actions := Step(cfg, states, actions, 1, CheckToken("t", true));
    states, actions := Step(cfg, states, actions, 2, CheckToken("t", true));
    assert states[|actions|].confirms == map[1 := Checked(claims, 0.0), 2 := Checked(claims, 0.0)];
    states, actions := Step(cfg, states, actions, 1, ComputeTtl);
    states, actions := Step(cfg, states, actions, 2, ComputeTtl);
    assert states[|actions|].confirms[1] == Timed(claims, 0.0, cfg.tokenTtl);
    states, actions := Step(cfg, states, actions, 1, Reserve(false));
    assert states[|actions|].confirms[1] == Calling(claims, true);
    i := |states[|actions|].trace|;
    states, actions := Step(cfg, states, actions, 1, UpdateReply(Some(200)));
  }

  /** The second reserves when the first one's reservation runs out, and is acknowledged as well. */
  lemma {:induction false} LateReservationAcknowledgedTwice(cfg: Config)
    returns (states: seq<State>, actions: seq<Action>, i: nat, j: nat)
    requires cfg.maxAttempts >= 1 && cfg.ttl >= 1 && cfg.tokenTtl >= 1
    ensures Behaviour(cfg, states, actions)
    ensures var trace := states[|actions|].trace;
            && i < j < |trace| && trace[i].Acked? && trace[j].Acked? && trace[i].claims == trace[j].claims
            && trace[i].timely && !trace[j].timely
  {
    var claims := OwnerClaims(cfg);
    states, actions, i := FirstAcknowledgement(cfg);
    var first := states[|actions|].trace;
    states, actions := Extend(cfg, states, actions, Advance(cfg.tokenTtl as real));
    states, actions := Step(cfg, states, actions, 2, Reserve(false));
    assert states[|actions|].confirms[2] == Calling(claims, false);
    j := |states[|actions|].trace|;
    states, actions := Step(cfg, states, actions, 2, UpdateReply(Some(200)));
    assert states[|actions|].trace[i] == first[i];
  }
}
