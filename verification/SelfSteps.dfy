/** What a member's own handoff row is good for: one re-wrap of their entry, to the key it names. */
module SelfSteps {
  import opened Wrappers
  import Accounts
  import opened Groups
  import opened GroupEffects

  /** A member brings their own entry current: by rotating, or in place in an Open group. */
  predicate SelfStepOf(step: Step, u: UserId) {
    (step.SelfRekey? && step.starter.user == u) || (step.SelfWrap? && step.self.user == u)
  }

  predicate HasRow(s: Group, u: UserId) { u in s.users && s.id in s.users[u].handoffs }

  /** The row the client left before it rotated names the key it wraps to now and the generation of the entry it read. */
  lemma SelfStepSpendsItsRow(s: Group, step: Step, u: UserId)
    requires Commits(s, step) && SelfStepOf(step, u)
    ensures var t := Effect(s, step);
            && u in s.members && HasRow(s, u) && !HasRow(t, u)
            && s.users[u].handoffs[s.id].generation == s.members[u].generation
            && s.users[u].handoffs[s.id].names == t.members[u].wrappedTo && !s.users[u].profile.deleted
            && t.members[u].wrapEpoch == s.users[u].profile.keyEpoch
            && t.members[u].generation == s.members[u].generation + if step.SelfRekey? then 1 else 0
  {
  }

  predicate Deposit(s: Group, step: Step, u: UserId) {
    step.OnAccount? && step.user == u && Commits(s, step)
    && step.step.PutHandoff? && step.step.group == s.id
  }

  /** Some handoff row of theirs for this group was stored during the run. */
  predicate Deposited(s: Group, steps: seq<Step>, u: UserId)
    decreases |steps|
  {
    steps != [] && (Deposit(s, steps[0], u) || Deposited(Next(s, steps[0]), steps[1..], u))
  }

  lemma AccountGainsNoRow(a: Account, step: Accounts.AccountStep, id: GroupId)
    requires id !in a.handoffs && !(step.PutHandoff? && step.group == id)
    ensures id !in Accounts.Apply(a, step).handoffs
  {
  }

  lemma SameGroup(s: Group, step: Step)
    ensures Next(s, step).id == s.id
  {
  }

  lemma RowsComeFromDeposits(s: Group, step: Step, u: UserId)
    requires u in s.users && !HasRow(s, u) && !Deposit(s, step, u)
    ensures var t := Next(s, step); t.id == s.id && u in t.users && !HasRow(t, u)
  {
    SameGroup(s, step);
    if Commits(s, step) {
      AccountsAfter(s, step);
      var part := AccountPart(s, step);
      if part.Some? && part.value.0 == u { AccountGainsNoRow(s.users[u], part.value.1, s.id); }
    }
  }

  lemma {:induction false} NoRowWithoutADeposit(s: Group, steps: seq<Step>, u: UserId)
    requires u in s.users && !HasRow(s, u) && !Deposited(s, steps, u)
    ensures !HasRow(Run(s, steps), u)
    decreases |steps|
  {
    if steps != [] {
      RowsComeFromDeposits(s, steps[0], u);
      NoRowWithoutADeposit(Next(s, steps[0]), steps[1..], u);
    }
  }

  /** So each takes a handoff row of its own: without a new one a second never commits, whatever else does. */
  lemma OneSelfStepADeposit(s: Group, first: Step, between: seq<Step>, second: Step, u: UserId)
    requires Commits(s, first) && SelfStepOf(first, u) && SelfStepOf(second, u)
    requires !Deposited(Next(s, first), between, u)
    ensures !Commits(Run(Next(s, first), between), second)
  {
    var t := Next(s, first);
    SelfStepSpendsItsRow(s, first, u);
    NoRowWithoutADeposit(t, between, u);
    if Commits(Run(t, between), second) { SelfStepSpendsItsRow(Run(t, between), second, u); }
  }

  lemma AccountKeepsItsRow(a: Account, step: Accounts.AccountStep, id: GroupId)
    requires id in a.handoffs && id in Accounts.Apply(a, step).handoffs && !(step.PutHandoff? && step.group == id)
    ensures Accounts.Apply(a, step).handoffs[id] == a.handoffs[id]
  {
  }

  lemma RowsAreKept(s: Group, step: Step, u: UserId)
    requires HasRow(s, u) && HasRow(Next(s, step), u) && !Deposit(s, step, u)
    ensures Next(s, step).id == s.id && Next(s, step).users[u].handoffs[s.id] == s.users[u].handoffs[s.id]
  {
    SameGroup(s, step);
    if Commits(s, step) {
      AccountsAfter(s, step);
      var part := AccountPart(s, step);
      if part.Some? && part.value.0 == u { AccountKeepsItsRow(s.users[u], part.value.1, s.id); }
    }
  }

  lemma UsersStay(s: Group, step: Step, u: UserId)
    requires u in s.users
    ensures Next(s, step).id == s.id && u in Next(s, step).users
  {
    SameGroup(s, step);
    if Commits(s, step) { AccountsAfter(s, step); }
  }

  lemma {:induction false} RowIsTheOneDeposited(s: Group, steps: seq<Step>, u: UserId)
    requires HasRow(s, u) && HasRow(Run(s, steps), u) && !Deposited(s, steps, u)
    ensures Run(s, steps).id == s.id && Run(s, steps).users[u].handoffs[s.id] == s.users[u].handoffs[s.id]
    decreases |steps|
  {
    if steps != [] {
      var t := Next(s, steps[0]);
      UsersStay(s, steps[0], u);
      if HasRow(t, u) {
        RowsAreKept(s, steps[0], u);
        RowIsTheOneDeposited(t, steps[1..], u);
      } else {
        NoRowWithoutADeposit(t, steps[1..], u);
      }
    }
  }

  /** A row is good only for the entry it was made for: by an admin, or in an Open group anybody, and not once the entry has moved. */
  lemma RowFitsItsEntryOnly(s: Group, deposit: Step, between: seq<Step>, later: Step, u: UserId)
    requires Deposit(s, deposit, u) && !Deposited(Next(s, deposit), between, u) && SelfStepOf(later, u)
    ensures var t := Run(Next(s, deposit), between);
            Commits(t, later) ==>
              && u in s.members && u in t.members && t.members[u].generation == s.members[u].generation
              && (IsOpen(s) || IsAdmin(s, u)) && Effect(t, later).members[u].wrappedTo == deposit.step.row.names
  {
    var v := Next(s, deposit);
    var t := Run(v, between);
    if Commits(t, later) {
      DepositIsThere(s, deposit, u);
      SelfStepSpendsItsRow(t, later, u);
      IdStays(v, between);
      RowIsTheOneDeposited(v, between, u);
    }
  }

  lemma DepositIsThere(s: Group, deposit: Step, u: UserId)
    requires Deposit(s, deposit, u)
    ensures HasRow(Next(s, deposit), u) && Next(s, deposit).users[u].handoffs[s.id] == deposit.step.row
    ensures Next(s, deposit).id == s.id && u in s.members && s.members[u].generation == deposit.step.row.generation
    ensures IsOpen(s) || IsAdmin(s, u)
  {
  }

  lemma {:induction false} IdStays(s: Group, steps: seq<Step>)
    ensures Run(s, steps).id == s.id
    decreases |steps|
  {
    if steps != [] {
      SameGroup(s, steps[0]);
      IdStays(Next(s, steps[0]), steps[1..]);
    }
  }
}
