/** A key rotation that an honest client can always ask for. */
module KeyRenewals {
  import opened Accounts

  function KeyBound(superseded: seq<SupersededKey>): (b: nat)
    ensures forall i :: 0 <= i < |superseded| ==> superseded[i].key < b
  {
    if superseded == [] then 0
    else
      var last := superseded[|superseded| - 1].key;
      var b := KeyBound(superseded[..|superseded| - 1]);
      if b <= last then last + 1 else b
  }

  function FreshSigningKey(a: Account): nat {
    var b := KeyBound(a.profile.superseded);
    if b <= a.profile.signingKey then a.profile.signingKey + 1 else b
  }

  /** It reads the account as it is, and takes a signing key the account never had. */
  function RenewalAt(a: Account, day: Instant, cooldown: int, now: Instant): AccountStep {
    var p := a.profile;
    RotateKeys(
      RotateKeysInput(
        p.credentialVersion, p.credentialVersion + 1, p.keyEpoch, SeqOf(a),
        p.signingKey, p.wrappingKey, FreshSigningKey(a), p.wrappingKey + 1,
        NextFrom(p.superseded), day, cooldown, now),
      a)
  }

  lemma LaterIsReflexive(a: Account)
    ensures Later(a, a)
  {
  }

  lemma RenewalIsHonestAt(a: Account, day: Instant, cooldown: int, now: Instant)
    requires HistoryInv(a)
    ensures var step := RenewalAt(a, day, cooldown, now); var b := Apply(a, step);
            && Honest(a, step)
            && (Commits(a, step) <==> !a.profile.deleted && (cooldown > 0 ==> CooldownOver(a, now)))
            && (Commits(a, step) ==>
                  !b.profile.deleted && b.profile.keyEpoch == a.profile.keyEpoch + 1
                  && b.profile.wrappingKey == a.profile.wrappingKey + 1)
            && b.handoffs == a.handoffs
  {
    LaterIsReflexive(a);
  }
}
