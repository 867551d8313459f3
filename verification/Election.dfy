/** Leader election for one scope: candidates compete for a single expiring key.
    Backend operations are atomic; between them any candidate may move. */
module Election {
  import opened TtlStore
  import opened Keys
  import opened Backends
  import opened Wrappers

  /** Where a candidate's loop stands between a backend answer and what it does with it. */
  datatype Phase = Idle | Refused | Winning | Losing

  datatype Candidate = Candidate(isLeader: bool, leaderId: string, phase: Phase)

  /** A Resign, or a Transfer to another id, that found the flag set; `gave` once it has given
      the key up and has yet to clear the flag. */
  datatype Leaving = Leaving(id: string, to: Option<string>, gave: bool)

  /** `grants` records, for each id, when it last got the key for a full lease and has
      not since given it up: by SetNX, by a renewal, or by a transfer to it. */
  datatype State = State(now: int, kv: Cells, candidates: map<string, Candidate>, grants: map<string, int>,
                         leaving: map<nat, Leaving>)

  datatype Setup = Setup(builder: Builder, scope: string, lease: int)

  function Key(c: Setup): string {
    LeaderKey(c.builder, c.scope)
  }

  datatype Step =
    | Tick(elapsed: nat)
    | Join(id: string)
    | Campaign(id: string)
    | Look(id: string)
    | TakeOffice(id: string)
    | Renew(id: string)
    | LeaveOffice(id: string)
    | Ask(call: nat, id: string, to: Option<string>)
    | Give(call: nat)
    | Clear(call: nat)
    | Foreign(kind: string, name: string, cell: Cell)

  function Backend(now: int, kv: Cells, op: Op): (r: (Cells, bool))
    requires op.SetNX? || op.CompareAndExpire? || op.CompareAndDelete? || op.CompareAndSwap?
  {
    var (s, a) := MemStep(MemState(Purge(kv, now), map[]), now, op);
    (s.kv, a.flag)
  }

  /** The id the key names now. */
  function Leader(c: Setup, st: State): Option<string> {
    var live := Purge(st.kv, st.now);
    if Key(c) in live then Some(live[Key(c)].value) else None
  }

  function Put(st: State, id: string, e: Candidate): State {
    st.(candidates := st.candidates[id := e])
  }

  function Next(c: Setup, st: State, step: Step): State {
    match step
    case Tick(d) => st.(now := st.now + d)
    case Join(id) => if id in st.candidates then st else Put(st, id, Candidate(false, "", Idle))
    case Foreign(kind, name, cell) =>
      if kind == "leader" || ':' in kind then st else st.(kv := st.kv[Root(c.builder, [kind, name]) := cell])
    case Give(call) =>
      if call in st.leaving && !st.leaving[call].gave then GiveNext(c, st, call, st.leaving[call]) else st
    case Clear(call) =>
      if call in st.leaving && st.leaving[call].gave then ClearNext(st, call, st.leaving[call].id) else st
    case _ =>
      var id := step.id;
      if id !in st.candidates then st else CandidateNext(c, st, step, st.candidates[id])
  }

  /** The backend operation of a Resign or a Transfer; a transfer that fails ends the call. */
  function GiveNext(c: Setup, st: State, call: nat, l: Leaving): State {
    var done := st.leaving[call := l.(gave := true)];
    match l.to
    case None =>
      var (kv, _) := Backend(st.now, st.kv, CompareAndDelete(Key(c), l.id));
      st.(kv := kv, grants := st.grants - {l.id}, leaving := done)
    case Some(to) =>
      var (kv, ok) := Backend(st.now, st.kv, CompareAndSwap(Key(c), l.id, to, c.lease));
      if ok then st.(kv := kv, grants := (st.grants - {l.id})[to := st.now], leaving := done)
      else st.(kv := kv, leaving := st.leaving - {call})
  }

  /** The flag is swapped out, and the known leader forgotten if it was set. */
  function ClearNext(st: State, call: nat, id: string): State {
    var rest := st.(leaving := st.leaving - {call});
    if id in st.candidates && st.candidates[id].isLeader
    then Put(rest, id, st.candidates[id].(isLeader := false, leaderId := "")) else rest
  }

  function CandidateNext(c: Setup, st: State, step: Step, e: Candidate): State
    requires !step.Tick? && !step.Join? && !step.Foreign? && !step.Give? && !step.Clear?
  {
    var id := step.id;
    match step
    case Campaign(_) =>
      if e.isLeader || e.phase != Idle then st
      else
        var (kv, ok) := Backend(st.now, st.kv, SetNX(Key(c), id, c.lease));
        if ok then Put(st.(kv := kv, grants := st.grants[id := st.now]), id, e.(phase := Winning))
        else Put(st.(kv := kv), id, e.(phase := Refused))
    case Look(_) =>
      if e.phase != Refused then st
      else
        (match Leader(c, st)
         case None => Put(st, id, e.(phase := Idle))
         case Some(cur) =>
           if cur == id then Put(st, id, e.(phase := Winning)) else Put(st, id, e.(phase := Idle, leaderId := cur)))
    case TakeOffice(_) =>
      if e.phase != Winning then st else Put(st, id, e.(isLeader := true, leaderId := id, phase := Idle))
    case Renew(_) =>
      if !e.isLeader || e.phase != Idle then st
      else
        var (kv, ok) := Backend(st.now, st.kv, CompareAndExpire(Key(c), id, c.lease));
        if ok then st.(kv := kv, grants := st.grants[id := st.now])
        else Put(st.(kv := kv), id, e.(phase := Losing))
    case LeaveOffice(_) =>
      if e.phase != Losing then st else Put(st, id, e.(isLeader := false, leaderId := "", phase := Idle))
    case Ask(call, _, to) =>
      if !e.isLeader || call in st.leaving then st
      else st.(leaving := st.leaving[call := Leaving(id, to, false)])
  }

  const INIT := State(0, map[], map[], map[], map[])

  function Run(c: Setup, st: State, steps: seq<Step>): State
    decreases |steps|
  {
    if steps == [] then st else Run(c, Next(c, st, steps[0]), steps[1..])
  }

  /** Within a full lease of its last grant. */
  predicate InLease(c: Setup, st: State, id: string) {
    id in st.grants && st.now < st.grants[id] + c.lease
  }

  /** The key names an id exactly while that id is within its lease. */
  ghost predicate Inv(c: Setup, st: State) {
    && (forall id :: id in st.grants ==> st.grants[id] <= st.now)
    && (forall id :: InLease(c, st, id) ==>
          Key(c) in st.kv && st.kv[Key(c)] == Cell(id, At(st.grants[id] + c.lease)))
    && (Key(c) in Purge(st.kv, st.now) ==> InLease(c, st, st.kv[Key(c)].value))
  }

  /** What each operation does to the key, whoever holds it. */
  lemma {:induction false} BackendEffect(now: int, kv: Cells, key: string, op: Op)
    requires op.SetNX? || op.CompareAndExpire? || op.CompareAndDelete? || op.CompareAndSwap?
    requires op.key == key && (!op.CompareAndDelete? ==> op.ttl > 0)
    ensures var (kv', ok) := Backend(now, kv, op);
            && (!ok && key in kv && Alive(kv[key].expireAt, now) ==> key in kv' && kv'[key] == kv[key])
            && (ok && op.SetNX? ==> key in kv' && kv'[key] == Cell(op.value, At(now + op.ttl)))
            && (ok && op.SetNX? && key in kv ==> !Alive(kv[key].expireAt, now))
            && (ok && op.CompareAndSwap? ==> key in kv' && kv'[key] == Cell(op.value, At(now + op.ttl)))
            && (ok && op.CompareAndSwap? && key in kv && Alive(kv[key].expireAt, now) ==> kv[key].value == op.expected)
            && (ok && op.CompareAndExpire? ==> key in kv && kv[key].value == op.expected)
            && (ok && op.CompareAndExpire? ==> key in kv' && kv'[key] == Cell(op.expected, At(now + op.ttl)))
            && (ok && op.CompareAndDelete? ==> key in kv && kv[key].value == op.expected)
  {
  }

  lemma {:induction false} InvForeign(c: Setup, st: State, kind: string, name: string, cell: Cell)
    requires Inv(c, st)
    ensures Inv(c, Next(c, st, Foreign(kind, name, cell)))
  {
    if kind != "leader" && ':' !in kind && Root(c.builder, [kind, name]) == Key(c) {
      KeysDisjoint(c.builder, kind, name, "leader", c.scope);
    }
  }

  lemma {:induction false} InvCampaign(c: Setup, st: State, id: string)
    requires c.lease > 0 && Inv(c, st)
    ensures Inv(c, Next(c, st, Campaign(id)))
  {
    BackendEffect(st.now, st.kv, Key(c), SetNX(Key(c), id, c.lease));
  }

  lemma {:induction false} InvRenew(c: Setup, st: State, id: string)
    requires c.lease > 0 && Inv(c, st)
    ensures Inv(c, Next(c, st, Renew(id)))
  {
    BackendEffect(st.now, st.kv, Key(c), CompareAndExpire(Key(c), id, c.lease));
  }

  lemma {:induction false} InvGive(c: Setup, st: State, call: nat)
    requires c.lease > 0 && Inv(c, st)
    ensures Inv(c, Next(c, st, Give(call)))
  {
    if call in st.leaving {
      var l := st.leaving[call];
      match l.to
      case None => BackendEffect(st.now, st.kv, Key(c), CompareAndDelete(Key(c), l.id));
      case Some(to) => BackendEffect(st.now, st.kv, Key(c), CompareAndSwap(Key(c), l.id, to, c.lease));
    }
  }

  /** The steps that touch neither the clock nor the backend. */
  lemma {:induction false} Aside(c: Setup, st: State, step: Step)
    requires step.Join? || step.Look? || step.TakeOffice? || step.LeaveOffice? || step.Ask? || step.Clear?
    ensures var st' := Next(c, st, step);
            st'.kv == st.kv && st'.grants == st.grants && st'.now == st.now
  {
  }

  lemma {:induction false} InvNext(c: Setup, st: State, step: Step)
    requires c.lease > 0 && Inv(c, st)
    ensures Inv(c, Next(c, st, step))
  {
    match step
    case Foreign(kind, name, cell) => InvForeign(c, st, kind, name, cell);
    case Campaign(id) => InvCampaign(c, st, id);
    case Renew(id) => InvRenew(c, st, id);
    case Give(call) => InvGive(c, st, call);
    case Tick(_) =>
    case _ => Aside(c, st, step);
  }

  lemma {:induction false} InvRun(c: Setup, st: State, steps: seq<Step>)
    requires c.lease > 0 && Inv(c, st)
    ensures Inv(c, Run(c, st, steps))
    decreases |steps|
  {
    if steps != [] {
      InvNext(c, st, steps[0]);
      InvRun(c, Next(c, st, steps[0]), steps[1..]);
    }
  }

  /** Over every interleaving, an id within its lease is the one the key names, so no
      two ids are within their leases at once. */
  lemma {:induction false} OneLeaderPerLease(c: Setup, steps: seq<Step>)
    requires c.lease > 0
    ensures var st := Run(c, INIT, steps);
            && (forall id :: InLease(c, st, id) ==> Leader(c, st) == Some(id))
            && (forall a, b :: InLease(c, st, a) && InLease(c, st, b) ==> a == b)
  {
    InvRun(c, INIT, steps);
  }

  /** The step gives up the id's key on its own behalf. */
  predicate GivesUp(st: State, step: Step, id: string) {
    step.Give? && step.call in st.leaving && st.leaving[step.call].id == id
  }

  predicate KeepsKey(c: Setup, st: State, steps: seq<Step>, id: string)
    decreases |steps|
  {
    steps == [] || (!GivesUp(st, steps[0], id) && KeepsKey(c, Next(c, st, steps[0]), steps[1..], id))
  }

  /** A grant lasts: from a state where `id` was just granted the key, whatever happens
      until the lease is over, the key names it unless it gave the key up itself. */
  lemma {:induction false} GrantLasts(c: Setup, st: State, steps: seq<Step>, id: string)
    requires c.lease > 0 && Inv(c, st) && id in st.grants && KeepsKey(c, st, steps, id)
    requires Run(c, st, steps).now < st.grants[id] + c.lease
    ensures Leader(c, Run(c, st, steps)) == Some(id)
    decreases |steps|
  {
    if steps == [] {
      assert InLease(c, st, id);
    } else {
      InvNext(c, st, steps[0]);
      var st' := Next(c, st, steps[0]);
      GrantKept(c, st, steps[0], id);
      ClockGrows(c, st', steps[1..]);
      GrantLasts(c, st', steps[1..], id);
    }
  }

  lemma {:induction false} GrantKept(c: Setup, st: State, step: Step, id: string)
    requires id in st.grants && !GivesUp(st, step, id)
    ensures var st' := Next(c, st, step);
            id in st'.grants && (st'.grants[id] == st.grants[id] || st'.grants[id] == st.now)
  {
  }

  lemma {:induction false} ClockGrows(c: Setup, st: State, steps: seq<Step>)
    ensures st.now <= Run(c, st, steps).now
    decreases |steps|
  {
    if steps != [] {
      ClockGrows(c, Next(c, st, steps[0]), steps[1..]);
    }
  }

  // ---- When leader flags exclude each other ----

  /** What the flag needs beyond the lease: a candidate that won or leads, and has not given
      the key up, renews or clears its flag before its lease ends; nobody campaigns during its
      own Resign or Transfer; and nobody takes office while one that gave the key up still
      has its flag. */
  datatype Rules = Rules(timely: bool, noReturn: bool, clearFirst: bool)

  const ALL_RULES := Rules(true, true, true)

  predicate GaveUp(st: State, id: string) {
    exists call :: call in st.leaving && st.leaving[call].id == id && st.leaving[call].gave
  }

  predicate Leads(st: State, id: string) {
    id in st.candidates && st.candidates[id].isLeader
  }

  /** The candidate acts on a key it believes to have. */
  predicate Claims(st: State, id: string) {
    (id in st.candidates && st.candidates[id].phase == Winning) || (Leads(st, id) && !GaveUp(st, id))
  }

  ghost predicate Allowed(r: Rules, c: Setup, st: State, step: Step) {
    match step
    case Tick(d) => r.timely ==> forall id :: Claims(st, id) ==> InLease(c, st.(now := st.now + d), id)
    case Campaign(id) => r.noReturn ==> forall call :: call in st.leaving ==> st.leaving[call].id != id
    case TakeOffice(_) => r.clearFirst ==> forall x :: Leads(st, x) ==> !GaveUp(st, x)
    case _ => true
  }

  ghost predicate AllowedRun(r: Rules, c: Setup, st: State, steps: seq<Step>)
    decreases |steps|
  {
    steps == [] || (Allowed(r, c, st, steps[0]) && AllowedRun(r, c, Next(c, st, steps[0]), steps[1..]))
  }

  ghost predicate OneFlag(st: State) {
    forall a, b :: Leads(st, a) && Leads(st, b) ==> a == b
  }

  /** Whoever claims the key has it, and nobody campaigns who leads or is giving it up. */
  ghost predicate FlagInv(c: Setup, st: State) {
    && Inv(c, st) && OneFlag(st)
    && (forall id :: Claims(st, id) ==> InLease(c, st, id))
    && (forall id :: Leads(st, id) ==> Settled(st.candidates[id].phase))
    && (forall call :: call in st.leaving ==> Parting(st, st.leaving[call].id))
  }

  predicate Parting(st: State, id: string) {
    id in st.candidates && Settled(st.candidates[id].phase)
  }

  predicate Settled(p: Phase) {
    p == Idle || p == Losing
  }

  /** Only the clock or the backend moved. */
  lemma {:induction false} FlagCarry(c: Setup, st: State, st': State)
    requires FlagInv(c, st) && Inv(c, st') && st'.candidates == st.candidates && st'.leaving == st.leaving
    requires forall id :: Claims(st, id) ==> InLease(c, st', id)
    ensures FlagInv(c, st')
  {
    assert forall id :: Claims(st', id) <==> Claims(st, id);
    assert forall id :: Leads(st', id) <==> Leads(st, id);
    forall call | call in st'.leaving
      ensures Parting(st', st'.leaving[call].id)
    {
      assert Parting(st, st.leaving[call].id);
    }
  }

  /** One candidate's own state changed. */
  lemma {:induction false} FlagPut(c: Setup, st: State, st': State, id: string, e: Candidate)
    requires FlagInv(c, st) && Inv(c, st') && st'.candidates == st.candidates[id := e] && st'.leaving == st.leaving
    requires forall x :: x != id && Claims(st, x) ==> InLease(c, st', x)
    requires e.phase == Winning || (e.isLeader && !GaveUp(st, id)) ==> InLease(c, st', id)
    requires e.isLeader ==> Settled(e.phase) && forall x :: Leads(st, x) ==> x == id
    requires forall call :: call in st.leaving && st.leaving[call].id == id ==> Settled(e.phase)
    ensures FlagInv(c, st')
  {
    assert forall x :: GaveUp(st', x) <==> GaveUp(st, x);
    assert forall x :: x != id ==> (Claims(st', x) <==> Claims(st, x)) && (Leads(st', x) <==> Leads(st, x));
    forall call | call in st'.leaving
      ensures Parting(st', st'.leaving[call].id)
    {
      assert Parting(st, st.leaving[call].id);
    }
  }

  /** Nobody else is within a lease of the key that one id is within a lease of. */
  lemma {:induction false} OneInLease(c: Setup, st: State, a: string, b: string)
    requires Inv(c, st) && InLease(c, st, a) && InLease(c, st, b)
    ensures a == b
  {
  }

  lemma {:induction false} FlagCampaign(c: Setup, st: State, id: string)
    requires c.lease > 0 && FlagInv(c, st) && Allowed(ALL_RULES, c, st, Campaign(id))
    ensures FlagInv(c, Next(c, st, Campaign(id)))
  {
    InvCampaign(c, st, id);
    var st' := Next(c, st, Campaign(id));
    if id in st.candidates && st' != st {
      FlagPut(c, st, st', id, st'.candidates[id]);
    }
  }

  lemma {:induction false} FlagLook(c: Setup, st: State, id: string)
    requires c.lease > 0 && FlagInv(c, st)
    ensures FlagInv(c, Next(c, st, Look(id)))
  {
    InvNext(c, st, Look(id));
    var st' := Next(c, st, Look(id));
    if id in st.candidates && st.candidates[id].phase == Refused {
      assert !Leads(st, id);
      forall call | call in st.leaving
        ensures st.leaving[call].id != id
      {
        assert Parting(st, st.leaving[call].id);
      }
      FlagPut(c, st, st', id, st'.candidates[id]);
    }
  }

  lemma {:induction false} FlagTakeOffice(c: Setup, st: State, id: string)
    requires c.lease > 0 && FlagInv(c, st) && Allowed(ALL_RULES, c, st, TakeOffice(id))
    ensures FlagInv(c, Next(c, st, TakeOffice(id)))
  {
    InvNext(c, st, TakeOffice(id));
    var st' := Next(c, st, TakeOffice(id));
    if id in st.candidates && st.candidates[id].phase == Winning {
      assert Claims(st, id);
      forall x | Leads(st, x)
        ensures x == id
      {
        assert Claims(st, x);
        OneInLease(c, st, x, id);
      }
      FlagPut(c, st, st', id, st'.candidates[id]);
    }
  }

  lemma {:induction false} FlagRenew(c: Setup, st: State, id: string)
    requires c.lease > 0 && FlagInv(c, st)
    ensures FlagInv(c, Next(c, st, Renew(id)))
  {
    InvRenew(c, st, id);
    var st' := Next(c, st, Renew(id));
    if Leads(st, id) && st.candidates[id].phase == Idle {
      BackendEffect(st.now, st.kv, Key(c), CompareAndExpire(Key(c), id, c.lease));
      if st'.candidates == st.candidates {
        FlagCarry(c, st, st');
      } else {
        assert !InLease(c, st, id);
        assert Claims(st, id) ==> InLease(c, st, id);
        FlagPut(c, st, st', id, st'.candidates[id]);
      }
    }
  }

  lemma {:induction false} FlagLeaveOffice(c: Setup, st: State, id: string)
    requires c.lease > 0 && FlagInv(c, st)
    ensures FlagInv(c, Next(c, st, LeaveOffice(id)))
  {
    InvNext(c, st, LeaveOffice(id));
    var st' := Next(c, st, LeaveOffice(id));
    if id in st.candidates && st.candidates[id].phase == Losing {
      FlagPut(c, st, st', id, st'.candidates[id]);
    }
  }

  lemma {:induction false} FlagAsk(c: Setup, st: State, call: nat, id: string, to: Option<string>)
    requires c.lease > 0 && FlagInv(c, st)
    ensures FlagInv(c, Next(c, st, Ask(call, id, to)))
  {
    InvNext(c, st, Ask(call, id, to));
    var st' := Next(c, st, Ask(call, id, to));
    if Leads(st, id) && call !in st.leaving {
      forall x
        ensures (GaveUp(st', x) <==> GaveUp(st, x)) && (Leads(st', x) <==> Leads(st, x))
      {
        if k :| k in st.leaving && st.leaving[k].id == x && st.leaving[k].gave {
          assert k in st'.leaving && st'.leaving[k] == st.leaving[k];
        }
      }
      assert forall x :: Claims(st', x) <==> Claims(st, x);
      forall k | k in st'.leaving
        ensures Parting(st', st'.leaving[k].id)
      {
        assert k != call ==> Parting(st, st.leaving[k].id);
      }
    }
  }

  /** A candidate that claims the key keeps it when another gives its own up. */
  lemma {:induction false} FlagGive(c: Setup, st: State, call: nat)
    requires c.lease > 0 && FlagInv(c, st)
    ensures FlagInv(c, Next(c, st, Give(call)))
  {
    InvGive(c, st, call);
    var st' := Next(c, st, Give(call));
    if call in st.leaving && !st.leaving[call].gave {
      var l := st.leaving[call];
      assert Parting(st, l.id);
      match l.to {
        case None => BackendEffect(st.now, st.kv, Key(c), CompareAndDelete(Key(c), l.id));
        case Some(to) => BackendEffect(st.now, st.kv, Key(c), CompareAndSwap(Key(c), l.id, to, c.lease));
      }
      forall x | GaveUp(st, x)
        ensures GaveUp(st', x)
      {
        var k :| k in st.leaving && st.leaving[k].id == x && st.leaving[k].gave;
        assert k in st'.leaving && st'.leaving[k] == st.leaving[k];
      }
      assert call in st'.leaving ==> GaveUp(st', l.id) by {
        assert call in st'.leaving ==> st'.leaving[call].id == l.id && st'.leaving[call].gave;
      }
      forall x | Claims(st', x)
        ensures InLease(c, st', x)
      {
        assert Claims(st, x);
        assert InLease(c, st, x);
      }
      assert forall x :: Leads(st', x) <==> Leads(st, x);
      forall k | k in st'.leaving
        ensures Parting(st', st'.leaving[k].id)
      {
        assert Parting(st, st.leaving[k].id);
      }
    }
  }

  lemma {:induction false} FlagClear(c: Setup, st: State, call: nat)
    requires c.lease > 0 && FlagInv(c, st)
    ensures FlagInv(c, Next(c, st, Clear(call)))
  {
    InvNext(c, st, Clear(call));
    var st' := Next(c, st, Clear(call));
    if call in st.leaving && st.leaving[call].gave {
      var id := st.leaving[call].id;
      assert Parting(st, id);
      assert forall x :: Leads(st', x) ==> x != id && Leads(st, x);
      forall x | Claims(st', x)
        ensures InLease(c, st', x)
      {
        if k :| k in st.leaving && st.leaving[k].id == x && st.leaving[k].gave && x != id {
          assert k in st'.leaving && st'.leaving[k] == st.leaving[k];
        }
        assert Claims(st, x);
      }
      forall k | k in st'.leaving
        ensures Parting(st', st'.leaving[k].id)
      {
        assert Parting(st, st.leaving[k].id);
      }
    }
  }

  lemma {:induction false} FlagJoin(c: Setup, st: State, id: string)
    requires c.lease > 0 && FlagInv(c, st)
    ensures FlagInv(c, Next(c, st, Join(id)))
  {
    InvNext(c, st, Join(id));
    var st' := Next(c, st, Join(id));
    if id !in st.candidates {
      forall call | call in st.leaving
        ensures st.leaving[call].id != id
      {
        assert Parting(st, st.leaving[call].id);
      }
      FlagPut(c, st, st', id, st'.candidates[id]);
    }
  }

  lemma {:induction false} FlagNext(c: Setup, st: State, step: Step)
    requires c.lease > 0 && FlagInv(c, st) && Allowed(ALL_RULES, c, st, step)
    ensures FlagInv(c, Next(c, st, step))
  {
    InvNext(c, st, step);
    match step
    case Tick(_) => FlagCarry(c, st, Next(c, st, step));
    case Foreign(_, _, _) => FlagCarry(c, st, Next(c, st, step));
    case Join(id) => FlagJoin(c, st, id);
    case Campaign(id) => FlagCampaign(c, st, id);
    case Look(id) => FlagLook(c, st, id);
    case TakeOffice(id) => FlagTakeOffice(c, st, id);
    case Renew(id) => FlagRenew(c, st, id);
    case LeaveOffice(id) => FlagLeaveOffice(c, st, id);
    case Ask(call, id, to) => FlagAsk(c, st, call, id, to);
    case Give(call) => FlagGive(c, st, call);
    case Clear(call) => FlagClear(c, st, call);
  }

  lemma {:induction false} FlagRun(c: Setup, st: State, steps: seq<Step>)
    requires c.lease > 0 && FlagInv(c, st) && AllowedRun(ALL_RULES, c, st, steps)
    ensures FlagInv(c, Run(c, st, steps))
    decreases |steps|
  {
    if steps != [] {
      FlagNext(c, st, steps[0]);
      FlagRun(c, Next(c, st, steps[0]), steps[1..]);
    }
  }

  // ---- None of the rules can be given up ----

  ghost predicate Reaches(r: Rules, c: Setup, st: State) {
    exists steps :: AllowedRun(r, c, INIT, steps) && Run(c, INIT, steps) == st
  }

  lemma {:induction false} RunSnoc(r: Rules, c: Setup, st: State, steps: seq<Step>, x: Step)
    ensures Run(c, st, steps + [x]) == Next(c, Run(c, st, steps), x)
    ensures AllowedRun(r, c, st, steps + [x]) <==> AllowedRun(r, c, st, steps) && Allowed(r, c, Run(c, st, steps), x)
    decreases |steps|
  {
    if steps == [] {
      assert [x][1..] == [] && steps + [x] == [x];
      assert Run(c, Next(c, st, x), []) == Next(c, st, x);
    } else {
      assert (steps + [x])[1..] == steps[1..] + [x];
      RunSnoc(r, c, Next(c, st, steps[0]), steps[1..], x);
    }
  }

  lemma {:induction false} Then(r: Rules, c: Setup, st: State, x: Step, st': State)
    requires Reaches(r, c, st) && Allowed(r, c, st, x) && Next(c, st, x) == st'
    ensures Reaches(r, c, st')
  {
    var steps :| AllowedRun(r, c, INIT, steps) && Run(c, INIT, steps) == st;
    RunSnoc(r, c, INIT, steps, x);
  }

  /** A free key makes a candidate leader. */
  lemma {:induction false} Elected(r: Rules, c: Setup, st: State, id: string) returns (st': State)
    requires c.lease > 0 && Reaches(r, c, st) && id !in st.candidates && Key(c) !in Purge(st.kv, st.now)
    requires forall call :: call in st.leaving ==> st.leaving[call].id != id
    requires r.clearFirst ==> forall x :: Leads(st, x) ==> !GaveUp(st, x)
    ensures Reaches(r, c, st') && st'.now == st.now && st'.leaving == st.leaving
    ensures Key(c) in st'.kv && st'.kv[Key(c)] == Cell(id, At(st.now + c.lease))
    ensures st'.candidates == st.candidates[id := Candidate(true, id, Idle)]
  {
    var s1 := Next(c, st, Join(id));
    Then(r, c, st, Join(id), s1);
    var s2 := Next(c, s1, Campaign(id));
    Then(r, c, s1, Campaign(id), s2);
    BackendEffect(s1.now, s1.kv, Key(c), SetNX(Key(c), id, c.lease));
    assert forall x :: Leads(s2, x) ==> Leads(st, x) && (GaveUp(s2, x) <==> GaveUp(st, x));
    st' := Next(c, s2, TakeOffice(id));
    Then(r, c, s2, TakeOffice(id), st');
  }

  lemma {:induction false} FirstElected(r: Rules, c: Setup) returns (st: State)
    requires c.lease > 0
    ensures Reaches(r, c, st) && st.now == 0 && st.leaving == map[]
    ensures Key(c) in st.kv && st.kv[Key(c)] == Cell("a", At(c.lease))
    ensures st.candidates == map["a" := Candidate(true, "a", Idle)]
  {
    assert AllowedRun(r, c, INIT, []) && Run(c, INIT, []) == INIT;
    st := Elected(r, c, INIT, "a");
  }

  /** A leader that has not noticed its lease ran out still has the flag. */
  lemma {:induction false} LateLeader(c: Setup)
    requires c.lease > 0
    ensures exists st :: Reaches(Rules(false, true, true), c, st) && !OneFlag(st)
  {
    var r := Rules(false, true, true);
    var s1 := FirstElected(r, c);
    var s2 := Next(c, s1, Tick(c.lease));
    Then(r, c, s1, Tick(c.lease), s2);
    var s3 := Elected(r, c, s2, "b");
    assert Leads(s3, "a") && Leads(s3, "b");
  }

  /** So does one that has deleted the key and not yet cleared the flag. */
  lemma {:induction false} PartingLeader(c: Setup)
    requires c.lease > 0
    ensures exists st :: Reaches(Rules(true, true, false), c, st) && !OneFlag(st)
  {
    var r := Rules(true, true, false);
    var s1 := FirstElected(r, c);
    var s2 := Next(c, s1, Ask(0, "a", None));
    Then(r, c, s1, Ask(0, "a", None), s2);
    var s3 := Next(c, s2, Give(0));
    Then(r, c, s2, Give(0), s3);
    assert Key(c) !in s3.kv;
    var s4 := Elected(r, c, s3, "b");
    assert Leads(s4, "a") && Leads(s4, "b");
  }

  lemma {:induction false} AskedTwice(r: Rules, c: Setup) returns (st: State)
    requires c.lease > 0
    ensures Reaches(r, c, st) && st.candidates == map["a" := Candidate(true, "a", Idle)]
    ensures Key(c) in st.kv && st.kv[Key(c)] == Cell("a", At(c.lease)) && st.now == 0
    ensures st.leaving == map[0 := Leaving("a", None, false), 1 := Leaving("a", None, false)]
  {
    var s1 := FirstElected(r, c);
    var s2 := Next(c, s1, Ask(0, "a", None));
    Then(r, c, s1, Ask(0, "a", None), s2);
    st := Next(c, s2, Ask(1, "a", None));
    Then(r, c, s2, Ask(1, "a", None), st);
  }

  lemma {:induction false} ResignedTwice(r: Rules, c: Setup) returns (st: State)
    requires c.lease > 0
    ensures Reaches(r, c, st) && Key(c) !in st.kv && st.leaving == map[1 := Leaving("a", None, false)]
    ensures st.candidates == map["a" := Candidate(false, "", Idle)]
  {
    var s1 := AskedTwice(r, c);
    var asked := Leaving("a", None, false);
    var s2 := Next(c, s1, Give(0));
    Then(r, c, s1, Give(0), s2);
    assert Key(c) !in s2.kv && s2.candidates == s1.candidates;
    assert s2.leaving == map[0 := asked.(gave := true), 1 := asked];
    st := Next(c, s2, Clear(0));
    Then(r, c, s2, Clear(0), st);
    assert s2.leaving - {0} == map[1 := asked];
  }

  lemma {:induction false} WonAgain(r: Rules, c: Setup) returns (st: State)
    requires c.lease > 0 && !r.noReturn
    ensures Reaches(r, c, st) && st.candidates == map["a" := Candidate(false, "", Winning)]
    ensures Key(c) in st.kv && st.kv[Key(c)] == Cell("a", At(st.now + c.lease))
    ensures st.leaving == map[1 := Leaving("a", None, false)]
  {
    var s1 := ResignedTwice(r, c);
    st := Next(c, s1, Campaign("a"));
    Then(r, c, s1, Campaign("a"), st);
    BackendEffect(s1.now, s1.kv, Key(c), SetNX(Key(c), "a", c.lease));
  }

  lemma {:induction false} Returning(r: Rules, c: Setup) returns (st: State)
    requires c.lease > 0 && !r.noReturn
    ensures Reaches(r, c, st) && Key(c) !in st.kv && st.leaving == map[]
    ensures st.candidates == map["a" := Candidate(false, "", Winning)]
  {
    var s1 := WonAgain(r, c);
    var s2 := Next(c, s1, Give(1));
    Then(r, c, s1, Give(1), s2);
    assert Key(c) !in s2.kv && s2.candidates == s1.candidates;
    assert s2.leaving == map[1 := Leaving("a", None, true)];
    st := Next(c, s2, Clear(1));
    Then(r, c, s2, Clear(1), st);
    assert s2.leaving - {1} == map[];
  }

  /** A candidate that resigned twice and won again in between: the second resignation deletes
      the key it believes to have, and another gets it. */
  lemma {:induction false} ReturningLeader(c: Setup)
    requires c.lease > 0
    ensures exists st :: Reaches(Rules(true, false, true), c, st) && !OneFlag(st)
  {
    var r := Rules(true, false, true);
    var st := Returning(r, c);
    var s1 := Elected(r, c, st, "b");
    var s2 := Next(c, s1, TakeOffice("a"));
    Then(r, c, s1, TakeOffice("a"), s2);
    assert Leads(s2, "a") && Leads(s2, "b");
  }

  lemma {:induction false} Weaken(strict: Rules, r: Rules, c: Setup, st: State, steps: seq<Step>)
    requires (r.timely ==> strict.timely) && (r.noReturn ==> strict.noReturn) && (r.clearFirst ==> strict.clearFirst)
    requires AllowedRun(strict, c, st, steps)
    ensures AllowedRun(r, c, st, steps)
    decreases |steps|
  {
    if steps != [] {
      Weaken(strict, r, c, Next(c, st, steps[0]), steps[1..]);
    }
  }

  /** At most one candidate has the leader flag in every reachable state exactly when all
      three rules are kept. */
  lemma {:induction false} FlagsExact(r: Rules, c: Setup)
    requires c.lease > 0
    ensures r == ALL_RULES <==> forall st :: Reaches(r, c, st) ==> OneFlag(st)
  {
    if r == ALL_RULES {
      forall st | Reaches(r, c, st)
        ensures OneFlag(st)
      {
        var steps :| AllowedRun(r, c, INIT, steps) && Run(c, INIT, steps) == st;
        assert FlagInv(c, INIT);
        FlagRun(c, INIT, steps);
      }
    } else {
      var strict := if !r.timely then Rules(false, true, true)
                    else if !r.noReturn then Rules(true, false, true) else Rules(true, true, false);
      LateLeader(c);
      ReturningLeader(c);
      PartingLeader(c);
      var st :| Reaches(strict, c, st) && !OneFlag(st);
      var steps :| AllowedRun(strict, c, INIT, steps) && Run(c, INIT, steps) == st;
      Weaken(strict, r, c, INIT, steps);
      assert Reaches(r, c, st);
    }
  }

  // ---- The elector and the runtime of one candidate ----

  /** Leadership as ownership of one expiring key. */
  class LeaseElector {
    const backend: Memory
    const builder: Builder

    constructor (backend: Memory, builder: Builder)
      ensures this.backend == backend && this.builder == builder
    {
      this.backend, this.builder := backend, builder;
    }

    /** Takes a free key at `now`, or finds at `later` that it already names us. */
    method Campaign(scope: string, id: string, lease: int, now: int, later: int) returns (won: bool)
      requires now <= later && lease > 0
      modifies backend`kv
      ensures var key, before := LeaderKey(builder, scope), old(backend.Live(now)).kv;
              && (key !in before ==> won && key in backend.kv && backend.kv[key] == Cell(id, At(now + lease)))
              && (key in before ==> (won <==> Holds(old(backend.Live(later)).kv, key, id)))
              && (key in before ==> forall t :: t >= later ==> Purge(backend.kv, t) == old(Purge(backend.kv, t)))
    {
      var key := LeaderKey(builder, scope);
      var ok := backend.SetNX(key, id, lease, now);
      if ok {
        assert key in backend.Live(now).kv;
        return true;
      }
      var cur := backend.Get(key, later);
      won := cur.Some? && cur.value == id;
    }

    method Renew(scope: string, id: string, lease: int, now: int) returns (ok: bool)
      modifies backend`kv
      ensures (backend.Live(now), Flag(ok)) ==
              MemStep(old(backend.Live(now)), now, CompareAndExpire(LeaderKey(builder, scope), id, lease))
    {
      ok := backend.CompareAndExpire(LeaderKey(builder, scope), id, lease, now);
    }

    method Resign(scope: string, id: string, now: int)
      modifies backend`kv
      ensures backend.Live(now) ==
              MemStep(old(backend.Live(now)), now, CompareAndDelete(LeaderKey(builder, scope), id)).0
    {
      var _ := backend.CompareAndDelete(LeaderKey(builder, scope), id, now);
    }

    method Transfer(scope: string, from: string, to: string, lease: int, now: int) returns (ok: bool)
      modifies backend`kv
      ensures (backend.Live(now), Flag(ok)) ==
              MemStep(old(backend.Live(now)), now, CompareAndSwap(LeaderKey(builder, scope), from, to, lease))
    {
      ok := backend.CompareAndSwap(LeaderKey(builder, scope), from, to, lease, now);
    }
  }

  datatype Error = NotLeader | LeadershipLost

  /** One candidate's leadership state in one scope. */
  class Runtime {
    const elector: LeaseElector
    const scope: string
    const id: string
    const lease: int
    var isLeader: bool
    var leaderId: string

    constructor (elector: LeaseElector, scope: string, id: string, lease: int)
      ensures this.elector == elector && this.scope == scope && this.id == id && this.lease == lease
      ensures !isLeader && leaderId == ""
    {
      this.elector, this.scope, this.id, this.lease := elector, scope, id, lease;
      isLeader, leaderId := false, "";
    }

    ghost function Key(): string {
      LeaderKey(elector.builder, scope)
    }

    /** A follower's tick: it becomes leader only of a key that names it; a backend error
        leaves it as it is. */
    method CampaignTick(now: int, later: int, backendError: bool)
      requires now <= later && lease > 0 && !isLeader
      modifies this, elector.backend`kv
      ensures backendError ==> !isLeader && leaderId == old(leaderId) && elector.backend.kv == old(elector.backend.kv)
      ensures !backendError ==>
                (isLeader <==> Key() !in old(elector.backend.Live(now)).kv ||
                               Holds(old(elector.backend.Live(later)).kv, Key(), id))
      ensures isLeader ==> leaderId == id
      ensures isLeader ==> Key() in elector.backend.kv && elector.backend.kv[Key()].value == id
      ensures !backendError && !isLeader && Key() in old(elector.backend.Live(later)).kv ==>
                leaderId == old(elector.backend.Live(later)).kv[Key()].value
    {
      if backendError {
        return;
      }
      var won := elector.Campaign(scope, id, lease, now, later);
      if won {
        isLeader, leaderId := true, id;
        return;
      }
      var cur := elector.backend.Get(LeaderKey(elector.builder, scope), later);
      if cur.Some? {
        leaderId := cur.value;
      }
    }

    /** A leader's tick: a backend error keeps the flag, a failed renewal clears it. */
    method RenewTick(now: int, backendError: bool)
      requires isLeader
      modifies this, elector.backend`kv
      ensures backendError ==> isLeader && elector.backend.kv == old(elector.backend.kv)
      ensures !backendError ==>
                && (isLeader <==> Holds(old(elector.backend.Live(now)).kv, Key(), id))
                && elector.backend.Live(now)
                   == MemStep(old(elector.backend.Live(now)), now, CompareAndExpire(Key(), id, lease)).0
                && (!isLeader ==> leaderId == "")
    {
      if backendError {
        return;
      }
      var ok := elector.Renew(scope, id, lease, now);
      if !ok {
        isLeader, leaderId := false, "";
      }
    }

    method Resign(now: int) returns (err: Option<Error>)
      modifies this, elector.backend`kv
      ensures err == old(if isLeader then None else Some(NotLeader))
      ensures err.Some? ==> elector.backend.kv == old(elector.backend.kv) && isLeader == old(isLeader)
      ensures err.None? ==> !isLeader && !Holds(elector.backend.Live(now).kv, Key(), id)
    {
      if !isLeader {
        return Some(NotLeader);
      }
      elector.Resign(scope, id, now);
      isLeader, leaderId := false, "";
      return None;
    }

    method Transfer(to: string, now: int) returns (err: Option<Error>)
      requires lease > 0
      modifies this, elector.backend`kv
      ensures !old(isLeader) ==> err == Some(NotLeader) && elector.backend.kv == old(elector.backend.kv)
      ensures err.None? ==> !isLeader && Holds(elector.backend.Live(now).kv, Key(), to)
      ensures err.Some? ==> isLeader == old(isLeader)
      ensures err == Some(LeadershipLost) ==> elector.backend.Live(now) == old(elector.backend.Live(now))
      ensures old(isLeader) && id != "" ==> (err.None? <==> Holds(old(elector.backend.Live(now)).kv, Key(), id))
      ensures old(isLeader) && err.Some? ==> err == Some(LeadershipLost)
    {
      if !isLeader {
        return Some(NotLeader);
      }
      var ok := elector.Transfer(scope, id, to, lease, now);
      if !ok {
        return Some(LeadershipLost);
      }
      isLeader, leaderId := false, "";
      return None;
    }
  }
}
