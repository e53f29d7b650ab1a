/** The life of every upstream state and every authorization code. Two small
    automata read the history, one per state and one per code, and go Broken
    on anything out of order. In every run they never break and they agree
    with the maps and the in-flight handlers. */
module OAuthLifecycle {
  import opened Common
  import opened OAuthModel
  import opened OAuthProtocol

  datatype StatePhase =
    Unborn | Pending | InFlight(h: nat) | StateFailed | StateSwept | HasCode(code: string) | StateBroken

  datatype CodePhase =
    Unissued | Live(state: string) | TakenBy(h: nat) | CodeRejected | Redeemed | CodeSwept | CodeBroken

  function NextState(p: StatePhase, e: Entry, st: string): StatePhase {
    match e
    case Created(s, _, _, _) => if s != st then p else if p.Unborn? then Pending else StateBroken
    case Taken(s, h) => if s != st then p else if p.Pending? then InFlight(h) else StateBroken
    case Checked(s, _) => if s != st || p.InFlight? then p else StateBroken
    case Exchanged(s, _, _, _) => if s != st || p.InFlight? then p else StateBroken
    case VerifiedOk(s, _) => if s != st || p.InFlight? then p else StateBroken
    case Failed(s) => if s != st then p else if p.InFlight? then StateFailed else StateBroken
    case Issued(s, c, _, _) => if s != st then p else if p.InFlight? then HasCode(c) else StateBroken
    case Swept(states, _) => if st !in states then p else if p.Pending? then StateSwept else StateBroken
    case _ => p
  }

  function NextCode(p: CodePhase, e: Entry, code: string): CodePhase {
    match e
    case Issued(s, c, _, _) => if c != code then p else if p.Unissued? then Live(s) else CodeBroken
    case Burned(c, h) => if c != code then p else if p.Live? then TakenBy(h) else CodeBroken
    case Rejected(c) => if c != code then p else if p.TakenBy? then CodeRejected else CodeBroken
    case Delivered(c, _, _, _) => if c != code then p else if p.TakenBy? then Redeemed else CodeBroken
    case Swept(_, codes) => if code !in codes then p else if p.Live? then CodeSwept else CodeBroken
    case _ => p
  }

  function StateOf(log: seq<Entry>, st: string): StatePhase {
    if log == [] then Unborn else NextState(StateOf(log[..|log| - 1], st), log[|log| - 1], st)
  }

  function CodeOf(log: seq<Entry>, c: string): CodePhase {
    if log == [] then Unissued else NextCode(CodeOf(log[..|log| - 1], c), log[|log| - 1], c)
  }

  lemma PhasesAppend(log: seq<Entry>, e: Entry)
    ensures forall st :: StateOf(log + [e], st) == NextState(StateOf(log, st), e, st)
    ensures forall c :: CodeOf(log + [e], c) == NextCode(CodeOf(log, c), e, c)
  {
    assert (log + [e])[..|log|] == log;
  }

  // ---- The automata agree with the proxy ----

  function HeldState(f: Flight): Option<string> {
    match f
    case CallbackTaken(req, found) => if found.Some? then Some(req.state) else None
    case CallbackChecked(st, _, _) => Some(st)
    case CallbackExchanged(st, _, _, _) => Some(st)
    case CallbackVerified(st, _, _, _) => Some(st)
    case _ => None
  }

  function HeldCode(f: Flight): Option<string> {
    if f.TokenTaken? && f.grant.Some? then Some(f.treq.code) else None
  }

  /** What the automata can see of the proxy: the keys of its maps, and which
      handler holds which state or code. */
  datatype View = View(pending: set<string>, live: set<string>, states: map<nat, string>, codes: map<nat, string>)

  function HeldStates(flights: map<nat, Flight>): map<nat, string> {
    map h | h in flights && HeldState(flights[h]).Some? :: HeldState(flights[h]).value
  }

  function HeldCodes(flights: map<nat, Flight>): map<nat, string> {
    map h | h in flights && HeldCode(flights[h]).Some? :: HeldCode(flights[h]).value
  }

  function ViewOf(c: Core): View {
    View(c.store.sessions.Keys, c.store.grants.Keys, HeldStates(c.flights), HeldCodes(c.flights))
  }

  ghost predicate StatesTied(log: seq<Entry>, v: View, used: set<string>) {
    && (forall st :: StateOf(log, st) != StateBroken)
    && (forall st :: StateOf(log, st) == Pending <==> st in v.pending)
    && (forall st, h :: StateOf(log, st) == InFlight(h) <==> h in v.states && v.states[h] == st)
    && (forall st :: st !in used ==> StateOf(log, st) == Unborn)
  }

  ghost predicate CodesTied(log: seq<Entry>, v: View, used: set<string>) {
    && (forall c :: CodeOf(log, c) != CodeBroken)
    && (forall c :: CodeOf(log, c).Live? <==> c in v.live)
    && (forall c, h :: CodeOf(log, c) == TakenBy(h) <==> h in v.codes && v.codes[h] == c)
    && (forall c :: c !in used ==> CodeOf(log, c) == Unissued)
  }

  /** A state's code exists and belongs to no other state, and a live code
      knows the state that produced it. */
  ghost predicate Linked(log: seq<Entry>) {
    && (forall st :: StateOf(log, st).HasCode? ==> CodeOf(log, StateOf(log, st).code) != Unissued)
    && (forall c :: CodeOf(log, c).Live? ==> StateOf(log, CodeOf(log, c).state) == HasCode(c))
    && (forall st, su :: StateOf(log, st).HasCode? && StateOf(log, st) == StateOf(log, su) ==> st == su)
  }

  ghost predicate Tied(log: seq<Entry>, v: View, used: set<string>) {
    StatesTied(log, v, used) && CodesTied(log, v, used) && Linked(log)
  }

  // ---- One entry ----

  /** The change of view that an entry records. */
  predicate Records(v: View, e: Entry, w: View) {
    match e
    case Created(st, _, _, _) => w == v.(pending := v.pending + {st})
    case Taken(st, h) =>
      st in v.pending && h !in v.states && w == v.(pending := v.pending - {st}, states := v.states[h := st])
    case Checked(st, _) => st in v.states.Values && w == v
    case Exchanged(st, _, _, _) => st in v.states.Values && w == v
    case VerifiedOk(st, _) => st in v.states.Values && w == v
    case Failed(st) => exists h | h in v.states :: v.states[h] == st && w == v.(states := v.states - {h})
    case Issued(st, c, _, _) =>
      exists h | h in v.states :: v.states[h] == st && w == v.(states := v.states - {h}, live := v.live + {c})
    case Burned(c, h) => c in v.live && h !in v.codes && w == v.(live := v.live - {c}, codes := v.codes[h := c])
    case Rejected(c) => Answers(v, c, w)
    case Delivered(c, _, _, _) => Answers(v, c, w)
    case Swept(ss, cs) => ss <= v.pending && cs <= v.live && w == v.(pending := v.pending - ss, live := v.live - cs)
  }

  /** The token handler that holds the code finishes. */
  predicate Answers(v: View, c: string, w: View) {
    exists h | h in v.codes :: v.codes[h] == c && w == v.(codes := v.codes - {h})
  }

  function Minted(e: Entry): set<string> {
    match e
    case Created(st, _, _, _) => {st}
    case Issued(_, c, _, _) => {c}
    case _ => {}
  }

  lemma RecordKeepsStates(log: seq<Entry>, v: View, used: set<string>, e: Entry, w: View)
    requires StatesTied(log, v, used) && Records(v, e, w) && Minted(e) !! used
    ensures StatesTied(log + [e], w, used + Minted(e))
  {
    PhasesAppend(log, e);
  }

  lemma RecordKeepsCodes(log: seq<Entry>, v: View, used: set<string>, e: Entry, w: View)
    requires CodesTied(log, v, used) && Records(v, e, w) && Minted(e) !! used
    ensures CodesTied(log + [e], w, used + Minted(e))
  {
    PhasesAppend(log, e);
  }

  lemma RecordKeepsLinks(log: seq<Entry>, v: View, used: set<string>, e: Entry, w: View)
    requires Tied(log, v, used) && Records(v, e, w) && Minted(e) !! used
    ensures Linked(log + [e])
  {
    if e.Issued? { IssueKeepsLinks(log, v, used, e, w); } else { OthersKeepLinks(log, v, used, e, w); }
  }

  lemma IssueKeepsLinks(log: seq<Entry>, v: View, used: set<string>, e: Entry, w: View)
    requires Tied(log, v, used) && Records(v, e, w) && Minted(e) !! used && e.Issued?
    ensures Linked(log + [e])
  {
    PhasesAppend(log, e);
  }

  lemma OthersKeepLinks(log: seq<Entry>, v: View, used: set<string>, e: Entry, w: View)
    requires Tied(log, v, used) && Records(v, e, w) && Minted(e) !! used && !e.Issued?
    ensures Linked(log + [e])
  {
    PhasesAppend(log, e);
  }

  // ---- One step ----

  lemma ContinueView(flights: map<nat, Flight>, h: nat, f: Flight)
    ensures HeldStates(flights[h := f]) ==
            if HeldState(f).Some? then HeldStates(flights)[h := HeldState(f).value] else HeldStates(flights) - {h}
    ensures HeldCodes(flights[h := f]) ==
            if HeldCode(f).Some? then HeldCodes(flights)[h := HeldCode(f).value] else HeldCodes(flights) - {h}
  {
  }

  lemma FinishView(flights: map<nat, Flight>, h: nat)
    ensures HeldStates(flights - {h}) == HeldStates(flights) - {h}
    ensures HeldCodes(flights - {h}) == HeldCodes(flights) - {h}
  {
  }

  /** What holds once the sweep a step starts with has been done. */
  predicate Settled(env: Env, c: Core, e: Event) {
    SweepsFirst(env, c, e) ==> Prune(c.store, e.at) == c.store
  }

  /** Sweeping first and then acting is the step itself. */
  lemma SweepThenAct(env: Env, s: System, e: Event)
    ensures var s1 := Swept1(env, s, e);
            && Settled(env, s1.core, e)
            && Step(env, s1.core, e) == Step(env, s.core, e)
            && s1.core.flights == s.core.flights && s1.used == s.used
  {
    if SweepsFirst(env, s.core, e) {
      PrunePrune(s.core.store, e.at, e.at);
    }
  }

  lemma HeldByFlight(c: Core, h: nat)
    requires h in c.flights
    ensures HeldState(c.flights[h]).Some? ==>
              h in ViewOf(c).states && ViewOf(c).states[h] == HeldState(c.flights[h]).value
              && HeldState(c.flights[h]).value in ViewOf(c).states.Values
    ensures HeldCode(c.flights[h]).Some? ==>
              h in ViewOf(c).codes && ViewOf(c).codes[h] == HeldCode(c.flights[h]).value
  {
  }

  /** A settled step changes the view as the entry it writes records, and not
      at all when it writes none. */
  ghost predicate ActsAsRecorded(env: Env, c: Core, e: Event) {
    var entry := ActionEntry(env, c, e);
    var v, w := ViewOf(c), ViewOf(Step(env, c, e).0);
    && |entry| <= 1
    && (entry == [] ==> w == v)
    && (entry != [] ==> Records(v, entry[0], w) && Minted(entry[0]) <= Tokens(e))
  }

  lemma RegisterView(env: Env, c: Core, e: Event)
    requires (e.Register? || e.Sweep?) && Settled(env, c, e)
    ensures ActsAsRecorded(env, c, e)
  {
  }

  lemma LookupView(env: Env, s: System, e: Event)
    requires e.AuthorizeLookup? && Enabled(s, e)
    ensures ActsAsRecorded(env, s.core, e)
  {
    var flights := Step(env, s.core, e).0.flights;
    if e.h in flights { ContinueView(s.core.flights, e.h, flights[e.h]); }
  }

  lemma StoredStep(env: Env, c: Core, e: Event)
    requires e.AuthorizeStore? && e.h in c.flights && c.flights[e.h].Authorizing?
    requires |c.store.sessions| < MAX_SESSIONS
    ensures var (t, entry) := (Step(env, c, e).0, ActionEntry(env, c, e));
            && t.store.sessions.Keys == c.store.sessions.Keys + {e.state}
            && t.store.grants == c.store.grants && t.flights == c.flights - {e.h}
            && |entry| == 1 && entry[0].Created? && entry[0].state == e.state
  {
  }

  lemma PendingAdded(c: Core, t: Core, h: nat, st: string)
    requires h in c.flights && c.flights[h].Authorizing?
    requires t.store.sessions.Keys == c.store.sessions.Keys + {st}
    requires t.store.grants == c.store.grants && t.flights == c.flights - {h}
    ensures ViewOf(t) == ViewOf(c).(pending := ViewOf(c).pending + {st})
  {
    NothingHeld(c.flights, h);
  }

  lemma StoredView(env: Env, c: Core, e: Event)
    requires e.AuthorizeStore? && e.h in c.flights && c.flights[e.h].Authorizing?
    requires |c.store.sessions| < MAX_SESSIONS
    ensures ActsAsRecorded(env, c, e)
  {
    StoredStep(env, c, e);
    PendingAdded(c, Step(env, c, e).0, e.h, e.state);
  }

  lemma StoreRefusedView(env: Env, c: Core, e: Event)
    requires e.AuthorizeStore? && e.h in c.flights && c.flights[e.h].Authorizing?
    requires |c.store.sessions| >= MAX_SESSIONS && Prune(c.store, e.at) == c.store
    ensures ActsAsRecorded(env, c, e)
  {
    NothingHeld(c.flights, e.h);
    assert Step(env, c, e).0 == Finish(c, e.h);
  }

  lemma StoreView(env: Env, c: Core, e: Event)
    requires e.AuthorizeStore? && Settled(env, c, e)
    ensures ActsAsRecorded(env, c, e)
  {
    if e.h in c.flights && c.flights[e.h].Authorizing? {
      if |c.store.sessions| < MAX_SESSIONS { StoredView(env, c, e); } else { StoreRefusedView(env, c, e); }
    }
  }

  lemma NothingHeld(flights: map<nat, Flight>, h: nat)
    requires h in flights && flights[h].Authorizing?
    ensures HeldStates(flights - {h}) == HeldStates(flights)
    ensures HeldCodes(flights - {h}) == HeldCodes(flights)
  {
  }

  lemma TakeStateView(env: Env, s: System, e: Event)
    requires e.CallbackTake? && Enabled(s, e)
    ensures ActsAsRecorded(env, s.core, e)
  {
    var flights := Step(env, s.core, e).0.flights;
    if e.h in flights { ContinueView(s.core.flights, e.h, flights[e.h]); }
  }

  lemma TakeCodeView(env: Env, s: System, e: Event)
    requires e.TokenTake? && Enabled(s, e)
    ensures ActsAsRecorded(env, s.core, e)
  {
    var flights := Step(env, s.core, e).0.flights;
    if e.h in flights { ContinueView(s.core.flights, e.h, flights[e.h]); }
  }

  predicate Refuses(c: Core, e: Event)
    requires e.CallbackCheck?
  {
    e.h in c.flights && c.flights[e.h].CallbackTaken?
    && CallbackVerdict(c.flights[e.h].creq, c.flights[e.h].found, e.at).Refuse?
  }

  lemma CheckFailedView(env: Env, c: Core, e: Event)
    requires e.CallbackCheck? && Refuses(c, e)
    ensures ActsAsRecorded(env, c, e)
  {
    assert Step(env, c, e).0 == Finish(c, e.h);
    FinishView(c.flights, e.h);
    HeldByFlight(c, e.h);
  }

  lemma CheckView(env: Env, c: Core, e: Event)
    requires e.CallbackCheck?
    ensures ActsAsRecorded(env, c, e)
  {
    if Refuses(c, e) {
      CheckFailedView(env, c, e);
    } else if e.h in c.flights {
      HeldByFlight(c, e.h);
      ContinueView(c.flights, e.h, Step(env, c, e).0.flights[e.h]);
    }
  }

  lemma ExchangeView(env: Env, c: Core, e: Event)
    requires e.Exchange?
    ensures ActsAsRecorded(env, c, e)
  {
    FinishView(c.flights, e.h);
    if e.h in c.flights { HeldByFlight(c, e.h); }
    var flights := Step(env, c, e).0.flights;
    if e.h in flights { ContinueView(c.flights, e.h, flights[e.h]); }
  }

  lemma VerifyView(env: Env, c: Core, e: Event)
    requires e.Verify?
    ensures ActsAsRecorded(env, c, e)
  {
    FinishView(c.flights, e.h);
    if e.h in c.flights { HeldByFlight(c, e.h); }
    var flights := Step(env, c, e).0.flights;
    if e.h in flights { ContinueView(c.flights, e.h, flights[e.h]); }
  }

  lemma IssueView(env: Env, c: Core, e: Event)
    requires e.CallbackGrant?
    ensures ActsAsRecorded(env, c, e)
  {
    FinishView(c.flights, e.h);
    if e.h in c.flights { HeldByFlight(c, e.h); }
  }

  lemma AnswerView(env: Env, c: Core, e: Event)
    requires e.TokenFinish?
    ensures ActsAsRecorded(env, c, e)
  {
    FinishView(c.flights, e.h);
    if e.h in c.flights { HeldByFlight(c, e.h); }
  }

  lemma StepRecords(env: Env, s: System, e: Event)
    requires Enabled(s, e) && Settled(env, s.core, e)
    ensures ActsAsRecorded(env, s.core, e)
  {
    match e
    case Register(_, _, _, _) => RegisterView(env, s.core, e);
    case Sweep(_) => RegisterView(env, s.core, e);
    case AuthorizeLookup(_, _, _) => LookupView(env, s, e);
    case AuthorizeStore(_, _, _, _, _) => StoreView(env, s.core, e);
    case CallbackTake(_, _, _) => TakeStateView(env, s, e);
    case TokenTake(_, _, _) => TakeCodeView(env, s, e);
    case CallbackCheck(_, _) => CheckView(env, s.core, e);
    case Exchange(_, _, _) => ExchangeView(env, s.core, e);
    case Verify(_, _, _) => VerifyView(env, s.core, e);
    case CallbackGrant(_, _, _) => IssueView(env, s.core, e);
    case TokenFinish(_, _) => AnswerView(env, s.core, e);
  }

  lemma RecordTied(log: seq<Entry>, v: View, used: set<string>, e: Entry, w: View, used': set<string>)
    requires Tied(log, v, used) && Records(v, e, w) && Minted(e) !! used
    requires used + Minted(e) <= used'
    ensures Tied(log + [e], w, used')
  {
    RecordKeepsStates(log, v, used, e, w);
    RecordKeepsCodes(log, v, used, e, w);
    RecordKeepsLinks(log, v, used, e, w);
  }

  lemma SweepRecords(c: Core, now: Time)
    ensures Records(ViewOf(c), SweepEntry(c.store, now), ViewOf(c.(store := Prune(c.store, now))))
  {
  }

  lemma SweepTied(env: Env, s: System, e: Event)
    requires Tied(s.log, ViewOf(s.core), s.used)
    ensures var s1 := Swept1(env, s, e); Tied(s1.log, ViewOf(s1.core), s1.used)
  {
    if SweepsFirst(env, s.core, e) {
      var x, w := SweepEntry(s.core.store, e.at), ViewOf(Swept1(env, s, e).core);
      SweepRecords(s.core, e.at);
      RecordTied(s.log, ViewOf(s.core), s.used, x, w, s.used);
    }
  }

  lemma NextTied(env: Env, s: System, e: Event)
    requires Tied(s.log, ViewOf(s.core), s.used) && Enabled(s, e)
    ensures var t := Next(env, s, e); Tied(t.log, ViewOf(t.core), t.used)
  {
    var s1, t := Swept1(env, s, e), Next(env, s, e);
    SweepTied(env, s, e);
    SweepThenAct(env, s, e);
    StepRecords(env, s1, e);
    EntriesTied(s1.log, ViewOf(s1.core), s1.used, ActionEntry(env, s1.core, e), ViewOf(t.core), Tokens(e));
  }

  lemma EntriesTied(log: seq<Entry>, v: View, used: set<string>, entry: seq<Entry>, w: View, tokens: set<string>)
    requires Tied(log, v, used) && tokens !! used && |entry| <= 1
    requires entry == [] ==> w == v
    requires entry != [] ==> Records(v, entry[0], w) && Minted(entry[0]) <= tokens
    ensures Tied(log + entry, w, used + tokens)
  {
    if entry == [] {
      assert log + entry == log;
    } else {
      assert entry == [entry[0]];
      RecordTied(log, v, used, entry[0], w, used + tokens);
    }
  }

  // ---- Conservation ----

  datatype Tally = Tally(created: nat, failed: nat, issued: nat, sweptStates: nat,
                         rejected: nat, delivered: nat, sweptCodes: nat)

  function Count(t: Tally, e: Entry): Tally {
    match e
    case Created(_, _, _, _) => t.(created := t.created + 1)
    case Failed(_) => t.(failed := t.failed + 1)
    case Issued(_, _, _, _) => t.(issued := t.issued + 1)
    case Rejected(_) => t.(rejected := t.rejected + 1)
    case Delivered(_, _, _, _) => t.(delivered := t.delivered + 1)
    case Swept(ss, cs) => t.(sweptStates := t.sweptStates + |ss|, sweptCodes := t.sweptCodes + |cs|)
    case _ => t
  }

  function TallyOf(log: seq<Entry>): Tally {
    if log == [] then Tally(0, 0, 0, 0, 0, 0, 0) else Count(TallyOf(log[..|log| - 1]), log[|log| - 1])
  }

  /** Nothing is lost: every session ever created is waiting, in a callback,
      failed, turned into a grant, or swept; every grant ever issued is
      waiting, in a token request, rejected, delivered, or swept. */
  predicate Balanced(t: Tally, v: View) {
    && t.created == |v.pending| + |v.states| + t.failed + t.issued + t.sweptStates
    && t.issued == |v.live| + |v.codes| + t.rejected + t.delivered + t.sweptCodes
  }

  predicate Conserved(log: seq<Entry>, v: View) { Balanced(TallyOf(log), v) }

  lemma SetMinus<T>(a: set<T>, b: set<T>)
    requires b <= a
    ensures |a - b| == |a| - |b|
  {
    assert a == (a - b) + b;
  }

  lemma MapMinus<V>(m: map<nat, V>, h: nat)
    requires h in m
    ensures |m - {h}| == |m| - 1
  {
    assert m == (m - {h})[h := m[h]];
  }

  lemma RecordConserves(log: seq<Entry>, v: View, e: Entry, w: View)
    requires Conserved(log, v) && Records(v, e, w)
    requires Minted(e) !! v.pending + v.live
    ensures Conserved(log + [e], w)
  {
    assert (log + [e])[..|log|] == log;
    CountBalances(TallyOf(log), v, e, w);
  }

  predicate Resized(v: View, w: View, pending: int, live: int, states: int, codes: int) {
    && |w.pending| == |v.pending| + pending && |w.live| == |v.live| + live
    && |w.states| == |v.states| + states && |w.codes| == |v.codes| + codes
  }

  lemma TakenSizes(v: View, e: Entry, w: View)
    requires e.Taken? && Records(v, e, w)
    ensures Resized(v, w, -1, 0, 1, 0)
  {
    SetMinus(v.pending, {e.state});
  }

  lemma FailedSizes(v: View, e: Entry, w: View)
    requires e.Failed? && Records(v, e, w)
    ensures Resized(v, w, 0, 0, -1, 0)
  {
    var h :| h in v.states && v.states[h] == e.state && w == v.(states := v.states - {h});
    MapMinus(v.states, h);
  }

  lemma IssueSizes(v: View, e: Entry, w: View)
    requires e.Issued? && Records(v, e, w) && Minted(e) !! v.pending + v.live
    ensures Resized(v, w, 0, 1, -1, 0)
  {
    var h :| h in v.states && v.states[h] == e.state && w == v.(states := v.states - {h}, live := v.live + {e.code});
    MapMinus(v.states, h);
  }

  lemma BurnSizes(v: View, e: Entry, w: View)
    requires e.Burned? && Records(v, e, w)
    ensures Resized(v, w, 0, -1, 0, 1)
  {
    SetMinus(v.live, {e.code});
  }

  lemma AnswerSizes(v: View, c: string, w: View)
    requires Answers(v, c, w)
    ensures Resized(v, w, 0, 0, 0, -1)
  {
    var h :| h in v.codes && v.codes[h] == c && w == v.(codes := v.codes - {h});
    MapMinus(v.codes, h);
  }

  lemma CountBalances(t: Tally, v: View, e: Entry, w: View)
    requires Balanced(t, v) && Records(v, e, w)
    requires Minted(e) !! v.pending + v.live
    ensures Balanced(Count(t, e), w)
  {
    if e.Taken? {
      TakenSizes(v, e, w);
    } else if e.Failed? {
      FailedSizes(v, e, w);
    } else if e.Issued? {
      IssueSizes(v, e, w);
    } else if e.Burned? {
      BurnSizes(v, e, w);
    } else if e.Rejected? || e.Delivered? {
      AnswerSizes(v, e.code, w);
    } else if e.Swept? {
      SetMinus(v.pending, e.states);
      SetMinus(v.live, e.codes);
    }
  }

  lemma MintedIsNew(log: seq<Entry>, v: View, used: set<string>, e: Entry)
    requires Tied(log, v, used) && Minted(e) !! used
    ensures Minted(e) !! v.pending + v.live
  {
    forall x | x in v.pending + v.live ensures x in used {
      assert StateOf(log, x) == Pending || CodeOf(log, x).Live?;
    }
  }

  ghost predicate Sound(s: System) {
    Tied(s.log, ViewOf(s.core), s.used) && Conserved(s.log, ViewOf(s.core))
  }

  lemma SweepConserves(env: Env, s: System, e: Event)
    requires Conserved(s.log, ViewOf(s.core))
    ensures var s1 := Swept1(env, s, e); Conserved(s1.log, ViewOf(s1.core))
  {
    if SweepsFirst(env, s.core, e) {
      var x, w := SweepEntry(s.core.store, e.at), ViewOf(Swept1(env, s, e).core);
      SweepRecords(s.core, e.at);
      RecordConserves(s.log, ViewOf(s.core), x, w);
    }
  }

  lemma NextConserves(env: Env, s: System, e: Event)
    requires Tied(s.log, ViewOf(s.core), s.used) && Conserved(s.log, ViewOf(s.core)) && Enabled(s, e)
    ensures var t := Next(env, s, e); Conserved(t.log, ViewOf(t.core))
  {
    var s1, t := Swept1(env, s, e), Next(env, s, e);
    SweepTied(env, s, e);
    SweepConserves(env, s, e);
    SweepThenAct(env, s, e);
    StepRecords(env, s1, e);
    EntriesConserve(s1.log, ViewOf(s1.core), s1.used, ActionEntry(env, s1.core, e), ViewOf(t.core), Tokens(e));
  }

  lemma EntriesConserve(log: seq<Entry>, v: View, used: set<string>, entry: seq<Entry>, w: View, tokens: set<string>)
    requires Tied(log, v, used) && tokens !! used && |entry| <= 1 && Conserved(log, v)
    requires entry == [] ==> w == v
    requires entry != [] ==> Records(v, entry[0], w) && Minted(entry[0]) <= tokens
    ensures Conserved(log + entry, w)
  {
    if entry == [] {
      assert log + entry == log;
    } else {
      assert entry == [entry[0]];
      MintedIsNew(log, v, used, entry[0]);
      RecordConserves(log, v, entry[0], w);
    }
  }

  lemma NextSound(env: Env, s: System, e: Event)
    requires Sound(s) && Enabled(s, e)
    ensures Sound(Next(env, s, e))
  {
    NextTied(env, s, e);
    NextConserves(env, s, e);
  }

  lemma {:induction false} RunSound(env: Env, s: System, es: seq<Event>)
    requires Sound(s) && ValidRun(env, s, es)
    ensures Sound(After(env, s, es))
    decreases |es|
  {
    if es != [] {
      NextSound(env, s, es[0]);
      RunSound(env, Next(env, s, es[0]), es[1..]);
    }
  }

  lemma ReachableSound(env: Env, s: System)
    requires Reachable(env, s)
    ensures Sound(s)
  {
    var es :| ValidRun(env, INITIAL, es) && After(env, INITIAL, es) == s;
    InitialSound();
    RunSound(env, INITIAL, es);
  }

  lemma InitialSound()
    ensures Sound(INITIAL)
  {
    assert INITIAL.core.store.sessions.Keys == {} && INITIAL.core.store.grants.Keys == {};
    assert HeldStates(map[]) == map[] && HeldCodes(map[]) == map[];
  }

  // ---- The fate of a state ----

  datatype Fate = NeverCreated | IsPending | IsInFlight | HasFailed | IsGranted | IsConsumed | IsSwept | OutOfOrder

  function FateOf(log: seq<Entry>, st: string): Fate {
    match StateOf(log, st)
    case Unborn => NeverCreated
    case Pending => IsPending
    case InFlight(_) => IsInFlight
    case StateFailed => HasFailed
    case StateSwept => IsSwept
    case StateBroken => OutOfOrder
    case HasCode(c) =>
      match CodeOf(log, c)
      case Live(_) => IsGranted
      case TakenBy(_) => IsConsumed
      case CodeRejected => IsConsumed
      case Redeemed => IsConsumed
      case CodeSwept => IsSwept
      case _ => OutOfOrder
  }

  predicate IsFinal(f: Fate) { f.HasFailed? || f.IsConsumed? || f.IsSwept? }

  lemma FateFromView(log: seq<Entry>, v: View, used: set<string>, st: string)
    requires Tied(log, v, used)
    ensures FateOf(log, st) != OutOfOrder
    ensures FateOf(log, st) == IsPending <==> st in v.pending
    ensures FateOf(log, st) == IsInFlight <==> exists h :: h in v.states && v.states[h] == st
    ensures forall h, k :: h in v.states && k in v.states && v.states[h] == st && v.states[k] == st ==> h == k
    ensures FateOf(log, st) == IsGranted <==> exists c :: c in v.live && CodeOf(log, c) == Live(st)
  {
    if FateOf(log, st) == IsInFlight {
      var h := StateOf(log, st).h;
      assert h in v.states && v.states[h] == st;
    }
    if h :| h in v.states && v.states[h] == st {
      assert StateOf(log, st) == InFlight(h);
    }
    forall h, k | h in v.states && k in v.states && v.states[h] == st && v.states[k] == st
      ensures h == k
    {
      assert StateOf(log, st) == InFlight(h) && StateOf(log, st) == InFlight(k);
    }
    if FateOf(log, st) == IsGranted {
      var c := StateOf(log, st).code;
      assert c in v.live && StateOf(log, CodeOf(log, c).state) == HasCode(c);
    }
  }

  /** In every reachable state of the proxy each upstream state has exactly
      one fate, none is out of order, and the fates that claim something about
      the maps and the handlers claim it rightly. */
  lemma EveryStateHasOneFate(env: Env, s: System, st: string)
    requires Reachable(env, s)
    ensures FateOf(s.log, st) != OutOfOrder
    ensures FateOf(s.log, st) == IsPending <==> st in s.core.store.sessions
    ensures FateOf(s.log, st) == IsInFlight
            <==> exists h :: h in s.core.flights && HeldState(s.core.flights[h]) == Some(st)
    ensures forall h, k | h in s.core.flights && k in s.core.flights ::
              HeldState(s.core.flights[h]) == Some(st) && HeldState(s.core.flights[k]) == Some(st) ==> h == k
    ensures FateOf(s.log, st) == IsGranted
            <==> exists c :: c in s.core.store.grants && CodeOf(s.log, c) == Live(st)
    ensures FateOf(s.log, st) == NeverCreated
            <==> forall i | 0 <= i < |s.log| :: !(s.log[i].Created? && s.log[i].state == st)
  {
    ReachableSound(env, s);
    FateFromView(s.log, ViewOf(s.core), s.used, st);
    NeverCreatedMeansSo(s.log, st);
    HoldersInView(s.core.flights, st);
  }

  lemma NeverCreatedMeansSo(log: seq<Entry>, st: string)
    requires FateOf(log, st) != OutOfOrder
    ensures FateOf(log, st) == NeverCreated <==> forall i | 0 <= i < |log| :: !(log[i].Created? && log[i].state == st)
  {
    UnbornMeansNotCreated(log, st);
  }

  lemma HoldersInView(flights: map<nat, Flight>, st: string)
    ensures (exists h :: h in HeldStates(flights) && HeldStates(flights)[h] == st)
            <==> (exists h :: h in flights && HeldState(flights[h]) == Some(st))
    ensures forall h | h in flights && HeldState(flights[h]) == Some(st) ::
              h in HeldStates(flights) && HeldStates(flights)[h] == st
  {
    if h :| h in flights && HeldState(flights[h]) == Some(st) {
      assert h in HeldStates(flights) && HeldStates(flights)[h] == st;
    }
  }

  lemma {:induction false} UnbornMeansNotCreated(log: seq<Entry>, st: string)
    ensures StateOf(log, st) == Unborn || StateOf(log, st) == StateBroken
            || exists i | 0 <= i < |log| :: log[i].Created? && log[i].state == st
    ensures StateOf(log, st) == Unborn ==> forall i | 0 <= i < |log| :: !(log[i].Created? && log[i].state == st)
  {
    if log != [] {
      UnbornMeansNotCreated(log[..|log| - 1], st);
    }
  }

  /** Tokens delivered never outnumber grants, nor grants sessions. */
  lemma DeliveredAtMostIssuedAtMostCreated(env: Env, s: System)
    requires Reachable(env, s)
    ensures TallyOf(s.log).delivered <= TallyOf(s.log).issued <= TallyOf(s.log).created
  {
    ReachableSound(env, s);
  }

  // ---- Once only ----

  function StateRank(p: StatePhase): nat {
    match p
    case Unborn => 0
    case Pending => 1
    case InFlight(_) => 2
    case StateBroken => 4
    case _ => 3
  }

  function CodeRank(p: CodePhase): nat {
    match p
    case Unissued => 0
    case Live(_) => 1
    case TakenBy(_) => 2
    case CodeBroken => 4
    case _ => 3
  }

  lemma {:induction false} RanksGrow(log: seq<Entry>, i: nat, j: nat, x: string)
    requires i <= j <= |log|
    ensures StateRank(StateOf(log[..i], x)) <= StateRank(StateOf(log[..j], x))
    ensures CodeRank(CodeOf(log[..i], x)) <= CodeRank(CodeOf(log[..j], x))
    decreases j
  {
    if i < j {
      RanksGrow(log, i, j - 1, x);
      assert log[..j][..j - 1] == log[..j - 1];
    }
  }

  /** What entry k does to a state or a code in the history. */
  lemma EntryMoves(log: seq<Entry>, k: nat, x: string)
    requires k < |log|
    ensures StateOf(log[..k + 1], x) == NextState(StateOf(log[..k], x), log[k], x)
    ensures CodeOf(log[..k + 1], x) == NextCode(CodeOf(log[..k], x), log[k], x)
    ensures StateOf(log, x) == StateBroken || StateRank(StateOf(log[..k + 1], x)) < 4
    ensures CodeOf(log, x) == CodeBroken || CodeRank(CodeOf(log[..k + 1], x)) < 4
  {
    assert log[..k + 1][..k] == log[..k] && log[..|log|] == log;
    RanksGrow(log, k + 1, |log|, x);
  }

  /** Two entries that move the same state from the same phase cannot both
      stand in a history that never broke. */
  lemma StateOnce(log: seq<Entry>, i: nat, j: nat, x: string)
    requires i < j < |log| && StateOf(log, x) != StateBroken
    ensures !(log[i].Created? && log[j].Created? && log[i].state == x == log[j].state)
    ensures !(log[i].Issued? && log[j].Issued? && log[i].state == x == log[j].state)
  {
    EntryMoves(log, i, x);
    RanksGrow(log, i + 1, j, x);
    EntryMoves(log, j, x);
  }

  lemma CodeOnce(log: seq<Entry>, i: nat, j: nat, x: string)
    requires i < j < |log| && CodeOf(log, x) != CodeBroken
    ensures !(log[i].Issued? && log[j].Issued? && log[i].code == x == log[j].code)
    ensures !(log[i].Burned? && log[j].Burned? && log[i].code == x == log[j].code)
    ensures !((log[i].Delivered? || log[i].Rejected?) && log[j].Delivered? && log[i].code == x == log[j].code)
  {
    EntryMoves(log, i, x);
    RanksGrow(log, i + 1, j, x);
    EntryMoves(log, j, x);
  }

  /** In every run a state is created at most once and yields at most one
      grant; a code is burned at most once and gets at most one successful
      answer, and none after a refusal. */
  lemma OnceOnly(env: Env, s: System, i: nat, j: nat)
    requires Reachable(env, s) && i < j < |s.log|
    ensures s.log[i].Created? && s.log[j].Created? ==> s.log[i].state != s.log[j].state
    ensures s.log[i].Issued? && s.log[j].Issued? ==> s.log[i].state != s.log[j].state && s.log[i].code != s.log[j].code
    ensures s.log[i].Burned? && s.log[j].Burned? ==> s.log[i].code != s.log[j].code
    ensures (s.log[i].Delivered? || s.log[i].Rejected?) && s.log[j].Delivered? ==> s.log[i].code != s.log[j].code
  {
    ReachableSound(env, s);
    var x := s.log[i];
    if x.Created? || x.Issued? { StateOnce(s.log, i, j, x.state); }
    if x.Issued? || x.Burned? || x.Delivered? || x.Rejected? { CodeOnce(s.log, i, j, x.code); }
  }

  lemma FinalFateKept(log: seq<Entry>, e: Entry, st: string)
    requires IsFinal(FateOf(log, st))
    ensures FateOf(log + [e], st) == OutOfOrder || IsFinal(FateOf(log + [e], st))
    ensures FateOf(log + [e], st) != OutOfOrder ==> FateOf(log + [e], st) == FateOf(log, st)
  {
    PhasesAppend(log, e);
  }

  /** Failed, consumed and swept are for ever: no continuation of the run
      brings the state back. */
  lemma {:induction false} FinalFatesStay(env: Env, s: System, es: seq<Event>, st: string)
    requires Sound(s) && ValidRun(env, s, es) && IsFinal(FateOf(s.log, st))
    ensures FateOf(After(env, s, es).log, st) == FateOf(s.log, st)
    decreases |es|
  {
    if es != [] {
      var t := Next(env, s, es[0]);
      NextSound(env, s, es[0]);
      FinalStep(env, s, es[0], st);
      FinalFatesStay(env, t, es[1..], st);
    }
  }

  lemma FinalStep(env: Env, s: System, e: Event, st: string)
    requires Sound(s) && Enabled(s, e) && IsFinal(FateOf(s.log, st))
    ensures FateOf(Next(env, s, e).log, st) == FateOf(s.log, st)
  {
    var s1, t := Swept1(env, s, e), Next(env, s, e);
    FinalSweep(env, s, e, st);
    NextTied(env, s, e);
    FateFromView(t.log, ViewOf(t.core), t.used, st);
    SweepThenAct(env, s, e);
    StepRecords(env, s1, e);
    FinalAcross(s1.log, ActionEntry(env, s1.core, e), st);
  }

  lemma FinalSweep(env: Env, s: System, e: Event, st: string)
    requires Sound(s) && IsFinal(FateOf(s.log, st))
    ensures FateOf(Swept1(env, s, e).log, st) == FateOf(s.log, st)
  {
    if SweepsFirst(env, s.core, e) {
      var s1 := Swept1(env, s, e);
      SweepTied(env, s, e);
      FateFromView(s1.log, ViewOf(s1.core), s1.used, st);
      FinalAcross(s.log, [SweepEntry(s.core.store, e.at)], st);
    }
  }

  lemma FinalAcross(log: seq<Entry>, entry: seq<Entry>, st: string)
    requires |entry| <= 1 && IsFinal(FateOf(log, st))
    ensures FateOf(log + entry, st) != OutOfOrder ==> FateOf(log + entry, st) == FateOf(log, st)
  {
    if entry == [] {
      assert log + entry == log;
    } else {
      assert entry == [entry[0]];
      FinalFateKept(log, entry[0], st);
    }
  }
}
