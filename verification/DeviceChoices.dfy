/** What a person chose on the device page, and what the device gets for it: read off the events of a run, and not of
    the rows that the choice went through (mindin/auth/device.py:120-160, 244-272). */
module DeviceChoices {
  import opened Texts
  import opened Secrets

  /** A decision on a device: a denial, or an approval for an account and a vault, with writing or without. */
  datatype Choice = Denial | Approval(account: string, vault: string, write: bool)

  /** The device's code is still there for the person who decides. */
  predicate Decides(s: State, person: nat, device: Secret) {
    person in s.people && s.people[person].device == device && IsLive(s, DeviceCode(device)) && device in s.devices
  }

  /** The last decision on a device, if there has been one. */
  function LastChoice(t: Trace, device: Secret): Option<Choice> {
    if t.First? then None
    else if t.event.Deny? && Decides(t.before.state, t.event.person, device) then Some(Denial)
    else if t.event.Approve? && Decides(t.before.state, t.event.person, device)
    then Some(Approval(t.before.state.people[t.event.person].account, t.event.vault, t.event.write))
    else LastChoice(t.before, device)
  }

  /** The scopes that a device asked for when it started. */
  function AskedFor(t: Trace, device: Secret): set<string> {
    if t.First? then {}
    else if t.event.StartDevice? && t.event.device == device then t.event.scopes
    else AskedFor(t.before, device)
  }

  /** Reading always, writing exactly when the person chose it and the device asked for it, and nothing else. */
  predicate FollowsChoice(scopes: set<string>, write: bool, asked: set<string>) {
    && READ_SCOPE in scopes
    && (WRITE_SCOPE in scopes <==> write && WRITE_SCOPE in asked)
    && scopes <= {READ_SCOPE, WRITE_SCOPE}
  }

  /** A row says what was last chosen. */
  predicate Tells(decision: Decision, choice: Option<Choice>, asked: set<string>) {
    match decision
    case Pending => choice.None?
    case Denied => choice == Some(Denial)
    case Approved(account, vault, granted) =>
      && choice.Some? && choice.value.Approval? && choice.value.account == account && choice.value.vault == vault
      && account != "" && FollowsChoice(granted, choice.value.write, asked)
  }

  predicate RowTells(t: Trace, device: Secret, row: Device) {
    row.scopes == AskedFor(t, device) && Tells(row.decision, LastChoice(t, device), AskedFor(t, device))
  }

  ghost predicate RowsTell(t: Trace) {
    && (forall d :: d in t.state.devices ==> RowTells(t, d, t.state.devices[d]))
    && forall d :: d !in t.state.devices ==> LastChoice(t, d).None? && AskedFor(t, d) == {}
  }

  lemma DecisionTells(t: Trace, d: Secret)
    requires Run(t) && t.More? && (t.event.Approve? || t.event.Deny?) && RowsTell(t.before) && Backs(t.before)
    requires d in t.state.devices
    ensures RowTells(t, d, t.state.devices[d])
  {
    var s := t.before.state;
    var p := s.people[t.event.person];
    assert Sees(s, p) && RowTells(t.before, d, s.devices[d]);
    if Decides(s, t.event.person, d) {
      assert SameAsk(p.row.value, s.devices[d]);
    }
  }

  lemma OthersTell(t: Trace, d: Secret)
    requires Run(t) && t.More? && !t.event.Approve? && !t.event.Deny? && RowsTell(t.before) && DevicesHaveFates(t.before.state)
    requires d in t.state.devices
    ensures RowTells(t, d, t.state.devices[d])
  {
    var s, e := t.before.state, t.event;
    if e.Judge? {
      JudgeKeepsDecisions(s, e, t.state);
    } else if !e.StartDevice? {
      OthersLeaveDevices(s, e, t.state);
    }
    if d in s.devices {
      assert RowTells(t.before, d, s.devices[d]);
    }
  }

  lemma {:induction false} AlwaysTell(t: Trace)
    requires Run(t)
    ensures RowsTell(t)
  {
    if t.More? {
      AlwaysTell(t.before);
      AlwaysBacks(t.before);
      StepKeepsAsks(t.before.state, t.event, t.state);
      forall d | d in t.state.devices ensures RowTells(t, d, t.state.devices[d]) {
        if t.event.Approve? || t.event.Deny? {
          DecisionTells(t, d);
        } else {
          OthersTell(t, d);
        }
      }
    }
  }

  /** The person has been shown the code, at a moment when it was there, had not expired and nobody had decided on it. */
  predicate WasShown(t: Trace, person: nat, device: Secret) {
    t.More? &&
    (WasShown(t.before, person, device)
     || (t.event.SeePending? && t.event.person == person && device in t.before.state.devices
         && IsLive(t.before.state, DeviceCode(device)) && t.event.moment <= t.before.state.devices[device].expires
         && LastChoice(t.before, device).None?))
  }

  ghost predicate ShownToAll(t: Trace) {
    forall p :: p in t.state.people && t.state.people[p].row.Some? ==> WasShown(t, p, t.state.people[p].device)
  }

  /** Whoever has a row in hand was shown a code that was still open. */
  lemma {:induction false} AlwaysShown(t: Trace)
    requires Run(t)
    ensures ShownToAll(t)
  {
    if t.More? {
      AlwaysShown(t.before);
      AlwaysTell(t.before);
      var s, e := t.before.state, t.event;
      if !e.Visit? && !e.SeePending? {
        OthersLeavePeople(s, e, t.state);
      }
      forall p | p in t.state.people && t.state.people[p].row.Some?
        ensures WasShown(t, p, t.state.people[p].device)
      {
        if e.SeePending? && e.person == p {
          assert RowTells(t.before, s.people[p].device, s.devices[s.people[p].device]);
        }
      }
    }
  }

  /** Nobody decides on a code who was not shown it while it was open. */
  lemma DecidersWereShown(t: Trace)
    requires Run(t) && t.More? && (t.event.Approve? || t.event.Deny?)
    ensures t.event.person in t.before.state.people
    ensures WasShown(t.before, t.event.person, t.before.state.people[t.event.person].device)
  {
    AlwaysShown(t.before);
  }

  /** The run up to the poll of a request. */
  function BeforePoll(t: Trace, id: nat): Trace {
    if t.First? then t
    else if t.event.Poll? && t.event.id == id then t.before
    else BeforePoll(t.before, id)
  }

  /** What a request knows of its device is the row that its poll found. */
  predicate FromPoll(t: Trace, id: nat, r: Request) {
    r.source.DeviceCode? ==>
      var was, device := BeforePoll(t, id), r.source.device;
      && (r.phase.Polled? ==>
            device in was.state.devices && r.phase.row == was.state.devices[device] && r.client == r.phase.row.client)
      && (r.phase.Ready? || r.phase.Took? ==>
            && device in was.state.devices && r.client == was.state.devices[device].client
            && match was.state.devices[device].decision
               case Pending => false
               case Denied => r.phase.grant.account == ""
               case Approved(account, vault, granted) =>
                 r.phase.grant.account == account && r.phase.grant.vault == vault && r.phase.grant.scopes == granted)
  }

  ghost predicate AllFromPolls(t: Trace) {
    forall id :: id in t.state.requests ==> FromPoll(t, id, t.state.requests[id])
  }

  lemma {:induction false} BeforePollIsARun(t: Trace, id: nat)
    requires Run(t)
    ensures Run(BeforePoll(t, id))
  {
    if t.More? && !(t.event.Poll? && t.event.id == id) {
      BeforePollIsARun(t.before, id);
    }
  }

  lemma JudgedFromPoll(t: Trace)
    requires Run(t) && t.More? && t.event.Judge? && AllFromPolls(t.before)
    ensures t.event.id in t.state.requests && FromPoll(t, t.event.id, t.state.requests[t.event.id])
  {
    var id := t.event.id;
    var r := t.before.state.requests[id];
    assert FromPoll(t.before, id, r);
    assert t.state.requests[id] == r.(phase := JudgedPhase(r.phase.row, r.phase.moment));
  }

  lemma MoverFromPoll(t: Trace)
    requires Run(t) && t.More? && MovesARequest(t.event) && !t.event.Judge? && AllFromPolls(t.before)
    ensures t.event.id in t.state.requests && FromPoll(t, t.event.id, t.state.requests[t.event.id])
  {
    assert FromPoll(t.before, t.event.id, t.before.state.requests[t.event.id]);
  }

  lemma {:induction false} AlwaysFromPolls(t: Trace)
    requires Run(t)
    ensures AllFromPolls(t)
  {
    if t.More? {
      var s, e := t.before.state, t.event;
      AlwaysFromPolls(t.before);
      AlwaysOneTaker(t.before);
      if MovesARequest(e) {
        RequestMoves(s, e, t.state);
      }
      forall id | id in t.state.requests ensures FromPoll(t, id, t.state.requests[id]) {
        if MovesARequest(e) && e.id == id {
          if e.Judge? {
            JudgedFromPoll(t);
          } else {
            MoverFromPoll(t);
          }
        } else if id in s.requests {
          assert FromPoll(t.before, id, s.requests[id]) && t.state.requests[id] == s.requests[id];
        }
      }
    }
  }

  /** A key is what the person chose, in the decision that the device's poll found: for the account that approved and the
      vault it chose, with reading always, with writing if and only if the person chose writing and the device had asked
      for it, and with nothing else; and the client that gets it is the one that started the device. */
  lemma KeyFollowsTheChoice(t: Trace)
    requires Run(t) && t.More? && t.event.MakeKey?
    ensures var r := t.before.state.requests[t.event.id];
      && r.source.DeviceCode?
      && var poll, device := BeforePoll(t.before, t.event.id), r.source.device;
         var choice := LastChoice(poll, device);
         && choice.Some? && choice.value.Approval?
         && r.phase.grant.account == choice.value.account && r.phase.grant.vault == choice.value.vault
         && FollowsChoice(r.phase.grant.scopes, choice.value.write, AskedFor(poll, device))
         && device in poll.state.devices && r.client == poll.state.devices[device].client
  {
    var id := t.event.id;
    var r := t.before.state.requests[id];
    var poll := BeforePoll(t.before, id);
    AlwaysFromPolls(t.before);
    BeforePollIsARun(t.before, id);
    AlwaysTell(poll);
    assert FromPoll(t.before, id, r);
    assert RowTells(poll, r.source.device, poll.state.devices[r.source.device]);
  }

  // ---- which polls are told to slow down ----

  /** The moment of the last poll of a device that was judged in time and while its code was there. */
  function LastPoll(t: Trace, device: Secret): Option<real> {
    if t.First? then None
    else if t.event.Judge? && Counts(t.before.state, t.event.id, device)
    then Some(t.before.state.requests[t.event.id].phase.moment)
    else LastPoll(t.before, device)
  }

  predicate Counts(s: State, id: nat, device: Secret) {
    && Serves(s, id, DeviceCode(device)) && s.requests[id].phase.Polled?
    && s.requests[id].phase.moment <= s.requests[id].phase.row.expires
    && IsLive(s, DeviceCode(device)) && device in s.devices
  }

  /** A poll comes too soon: less than the device's interval after the last one. */
  predicate ComesTooSoon(poll: Trace, device: Secret, moment: real) {
    LastPoll(poll, device).Some? && moment - LastPoll(poll, device).value < IntervalOf(poll.state, device) as real
  }

  ghost predicate PollsKept(t: Trace) {
    && (forall d :: d in t.state.devices ==> t.state.devices[d].lastPoll == LastPoll(t, d))
    && forall d :: d !in t.state.devices ==> LastPoll(t, d).None?
  }

  lemma JudgeKeepsPolls(t: Trace)
    requires Run(t) && t.More? && t.event.Judge? && PollsKept(t.before)
    ensures PollsKept(t)
  {
    var s, r := t.before.state, t.before.state.requests[t.event.id];
    assert t.state.devices == JudgedRow(s, r.source.device, r.phase.row, r.phase.moment).devices;
  }

  lemma OthersKeepPolls(t: Trace)
    requires Run(t) && t.More? && !t.event.Judge? && PollsKept(t.before) && DevicesHaveFates(t.before.state)
    ensures PollsKept(t)
  {
    if !WritesDevices(t.event) {
      OthersLeaveDevices(t.before.state, t.event, t.state);
    }
  }

  lemma {:induction false} AlwaysPollsKept(t: Trace)
    requires Run(t)
    ensures PollsKept(t)
  {
    if t.More? {
      AlwaysPollsKept(t.before);
      AlwaysBacks(t.before);
      if t.event.Judge? {
        JudgeKeepsPolls(t);
      } else {
        OthersKeepPolls(t);
      }
    }
  }

  /** A poll gets past its judgement exactly when it comes in time, not too soon after the last one, and after a decision;
      it is told to slow down exactly when it comes too soon; and one that comes too late ends the code. */
  lemma JudgedExactly(t: Trace)
    requires Run(t) && t.More? && t.event.Judge?
    ensures var id := t.event.id;
      var r, device, poll := t.before.state.requests[id], t.before.state.requests[id].source.device, BeforePoll(t.before, id);
      var moment := r.phase.moment;
      && device in poll.state.devices
      && (t.state.requests[id].phase.Ready? <==>
            && moment <= poll.state.devices[device].expires && !ComesTooSoon(poll, device, moment)
            && LastChoice(poll, device).Some?)
      && (SlowsDown(t.before.state, t.event, device) <==>
            Counts(t.before.state, id, device) && ComesTooSoon(poll, device, moment))
      && (moment > poll.state.devices[device].expires ==> !IsLive(t.state, DeviceCode(device)))
  {
    var id := t.event.id;
    var poll := BeforePoll(t.before, id);
    AlwaysFromPolls(t.before);
    BeforePollIsARun(t.before, id);
    AlwaysTell(poll);
    AlwaysPollsKept(poll);
    var r := t.before.state.requests[id];
    assert FromPoll(t.before, id, r);
    assert RowTells(poll, r.source.device, r.phase.row);
    AlwaysBacks(t.before);
    assert PollBacked(t.before, id, r);
  }

  // ---- codes and refresh tokens ----

  /** A token request finds a code or a refresh token exactly when it is still there and made for that client. */
  lemma FoundExactly(t: Trace)
    requires Run(t) && t.More? && t.event.Load?
    ensures var r := t.before.state.requests[t.event.id];
      t.state.requests[t.event.id].phase.Ready? <==>
      && IsLive(t.before.state, r.source)
      && match r.source
         case Code(c) => c in t.state.codes && t.state.codes[c].client == r.client
         case Refresh(x) => x in t.state.refreshes && t.state.refreshes[x].client == r.client
         case DeviceCode(_) => false
  {
  }

  /** What is issued for a code or a refresh token is issued to the client it was made for, on the terms of its row, and
      for a code before it expires. */
  lemma IssuedToItsClient(t: Trace)
    requires Run(t) && t.More? && t.event.SaveAccess?
    ensures var r := t.before.state.requests[t.event.id];
      match r.source
      case Code(c) =>
        && c in t.state.codes && r.phase.grant == t.state.codes[c] && r.client == t.state.codes[c].client
        && t.event.now <= t.state.codes[c].expires
      case Refresh(x) =>
        x in t.state.refreshes && r.phase.grant == t.state.refreshes[x] && r.client == t.state.refreshes[x].client
      case DeviceCode(_) => false
  {
    AlwaysCarries(t.before);
    assert Carries(t.before.state, t.before.state.requests[t.event.id]);
  }

  // ---- a secret that is gone, and runs in which everything is issued ----

  predicate WasRemoved(t: Trace, source: Source) {
    t.More? && (t.event == Remove(source) || WasRemoved(t.before, source))
  }

  /** A secret that was revoked, or that expired, yields nothing any more. */
  lemma {:induction false} RemovedStaysGone(t: Trace, source: Source)
    requires Run(t) && WasRemoved(t, source)
    ensures source in t.state.fates && t.state.fates[source].Gone?
  {
    if WasRemoved(t.before, source) {
      RemovedStaysGone(t.before, source);
      GoneStep(t.before.state, t.event, t.state, source);
    }
  }

  lemma GoneStep(s: State, e: Event, t: State, source: Source)
    requires Step(s, e, t) && source in s.fates && s.fates[source].Gone?
    ensures source in t.fates && t.fates[source].Gone?
  {
  }

  lemma Goes(t: Trace, e: Event, s: State) returns (longer: Trace)
    requires Run(t) && Step(t.state, e, s)
    ensures Run(longer) && longer == More(t, e, s)
  {
    longer := More(t, e, s);
  }

  const NOTHING := State(map[], map[], map[], map[], map[], map[])
  const GRANT := Grant("app", "a", "v", {READ_SCOPE, WRITE_SCOPE}, 60.0)
  const NARROW := Grant("app", "a", "v", {READ_SCOPE}, 900.0)

  /** A code is minted, loaded and taken. */
  lemma CodeTaken() returns (t: Trace)
    ensures Run(t) && t.state == State(map[Code("c") := Used(0)], map["c" := GRANT], map[], map[],
                                       map[0 := Request(Code("c"), "app", {}, Took(GRANT))], map[])
  {
    var reading := Request(Code("c"), "app", {}, Reading);
    var minted := State(map[Code("c") := Live], map["c" := GRANT], map[], map[], map[], map[]);
    t := Goes(First(NOTHING), MintCode("c", GRANT), minted);
    t := Goes(t, Begin(0, Code("c"), "app", {}), minted.(requests := map[0 := reading]));
    t := Goes(t, Load(0), minted.(requests := map[0 := reading.(phase := Ready(GRANT))]));
    t := Goes(t, Take(0), State(map[Code("c") := Used(0)], map["c" := GRANT], map[], map[],
                                map[0 := reading.(phase := Took(GRANT))], map[]));
  }

  const TAKEN := Request(Code("c"), "app", {}, Took(GRANT))
  const WIDE := GRANT.(expires := 900.0)

  /** A code yields an access and a refresh token. */
  lemma CodeYieldsTokens() returns (t: Trace)
    ensures Run(t) && Accesses(t, Code("c")) == 1 && Successors(t, Code("c")) == 1
    ensures t.state == State(map[Code("c") := Used(0), Refresh("r") := Live], map["c" := GRANT], map["r" := WIDE], map[],
                             map[0 := TAKEN.(phase := Done)], map[])
  {
    t := CodeTaken();
    var s := t.state;
    t := Goes(t, SaveAccess(0, 1.0), s.(requests := map[0 := TAKEN.(phase := Half(GRANT))]));
    t := Goes(t, SaveRefresh(0, "r", 900.0),
              s.(fates := s.fates[Refresh("r") := Live], refreshes := map["r" := WIDE],
                 requests := map[0 := TAKEN.(phase := Done)]));
    IssuedIsTaken(t, Code("c"));
  }

  const AGAIN := Request(Refresh("r"), "app", {READ_SCOPE}, Reading)

  function OneRefresh(fate: Fate, request: Request): State {
    State(map[Code("c") := Used(0), Refresh("r") := fate], map["c" := GRANT], map["r" := WIDE], map[],
          map[0 := TAKEN.(phase := Done), 1 := request], map[])
  }

  lemma RefreshFound() returns (t: Trace)
    ensures Run(t) && t.state == OneRefresh(Live, AGAIN.(phase := Ready(WIDE)))
  {
    t := CodeYieldsTokens();
    t := Goes(t, Begin(1, Refresh("r"), "app", {READ_SCOPE}), OneRefresh(Live, AGAIN));
    t := Goes(t, Load(1), OneRefresh(Live, AGAIN.(phase := Ready(WIDE))));
  }

  lemma RefreshTaken() returns (t: Trace)
    ensures Run(t) && t.state == OneRefresh(Used(1), AGAIN.(phase := Took(WIDE)))
  {
    t := RefreshFound();
    t := Goes(t, Take(1), OneRefresh(Used(1), AGAIN.(phase := Took(WIDE))));
  }

  lemma RefreshHalfDone() returns (t: Trace)
    ensures Run(t) && t.state == OneRefresh(Used(1), AGAIN.(phase := Half(WIDE)))
  {
    t := RefreshTaken();
    t := Goes(t, SaveAccess(1, 2.0), OneRefresh(Used(1), AGAIN.(phase := Half(WIDE))));
  }

  lemma RefreshIssued(t: Trace)
    requires Run(t) && t.state.fates == map[Code("c") := Used(0), Refresh("r") := Used(1), Refresh("n") := Live]
    requires t.state.requests == map[0 := TAKEN.(phase := Done), 1 := AGAIN.(phase := Done)]
    ensures Successors(t, Refresh("r")) == 1
  {
    IssuedIsTaken(t, Refresh("r"));
  }

  /** That token is exchanged for a narrower one: so the bounds above bound something. */
  lemma RefreshNarrows() returns (t: Trace)
    ensures Run(t) && Successors(t, Refresh("r")) == 1
    ensures "n" in t.state.refreshes && t.state.refreshes["n"] == NARROW
  {
    t := RefreshHalfDone();
    var done := OneRefresh(Used(1), AGAIN.(phase := Done));
    t := Goes(t, SaveRefresh(1, "n", 900.0),
              done.(fates := done.fates[Refresh("n") := Live], refreshes := done.refreshes["n" := NARROW]));
    RefreshIssued(t);
  }

  const ASKING := Device("cli", {READ_SCOPE, WRITE_SCOPE}, 900.0, Pending, DEVICE_INTERVAL, None)
  const GRANTED := ASKING.(decision := Approved("a", "v", {READ_SCOPE, WRITE_SCOPE}))

  function OneDevice(device: Device, fate: Fate, requests: map<nat, Request>, people: map<nat, Person>): State {
    State(map[DeviceCode("d") := fate], map[], map[], map["d" := device], requests, people)
  }

  lemma DeviceShown() returns (t: Trace)
    ensures Run(t) && t.state == OneDevice(ASKING, Live, map[], map[0 := Person("a", "d", Some(ASKING))])
  {
    t := Goes(First(NOTHING), StartDevice("d", "cli", {READ_SCOPE, WRITE_SCOPE}, 900.0),
              OneDevice(ASKING, Live, map[], map[]));
    t := Goes(t, Visit(0, "a", "d"), OneDevice(ASKING, Live, map[], map[0 := Person("a", "d", None)]));
    t := Goes(t, SeePending(0, 1.0), OneDevice(ASKING, Live, map[], map[0 := Person("a", "d", Some(ASKING))]));
  }

  /** Somebody approves writing for a device that asked for it. */
  lemma DeviceApproved() returns (t: Trace)
    ensures Run(t) && t.state == OneDevice(GRANTED, Live, map[], map[0 := Person("a", "d", Some(ASKING))])
  {
    t := DeviceShown();
    t := Goes(t, Approve(0, "v", true), OneDevice(GRANTED, Live, map[], map[0 := Person("a", "d", Some(ASKING))]));
  }

  const POLLING := Request(DeviceCode("d"), "cli", {}, Reading)
  const KEY := Grant("cli", "a", "v", {READ_SCOPE, WRITE_SCOPE}, 900.0)
  const POLLED := GRANTED.(lastPoll := Some(5.0))
  const SEEN: map<nat, Person> := map[0 := Person("a", "d", Some(ASKING))]

  lemma DeviceBegins() returns (t: Trace)
    ensures Run(t) && t.state == OneDevice(GRANTED, Live, map[0 := POLLING], SEEN)
  {
    t := DeviceApproved();
    t := Goes(t, Begin(0, DeviceCode("d"), "cli", {}), OneDevice(GRANTED, Live, map[0 := POLLING], SEEN));
  }

  lemma DevicePolls() returns (t: Trace)
    ensures Run(t) && t.state == OneDevice(POLLED, Live, map[0 := POLLING.(phase := Ready(KEY))], SEEN)
  {
    t := DeviceBegins();
    t := Goes(t, Poll(0, 5.0), OneDevice(GRANTED, Live, map[0 := POLLING.(phase := Polled(GRANTED, 5.0))], SEEN));
    t := Goes(t, Judge(0), OneDevice(POLLED, Live, map[0 := POLLING.(phase := Ready(KEY))], SEEN));
  }

  /** The device gets its key. */
  lemma DeviceGetsItsKey() returns (t: Trace)
    ensures Run(t) && Keys(t, DeviceCode("d")) == 1
  {
    t := DevicePolls();
    t := Goes(t, Take(0), OneDevice(POLLED, Used(0), map[0 := POLLING.(phase := Took(KEY))], SEEN));
    t := Goes(t, MakeKey(0), OneDevice(POLLED, Used(0), map[0 := POLLING.(phase := Done)], SEEN));
    IssuedIsTaken(t, DeviceCode("d"));
  }
}
