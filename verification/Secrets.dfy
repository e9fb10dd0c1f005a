/** One-time secrets under interleaved requests: authorization codes (section 4.1.2 of RFC 6749), refresh tokens and
    device codes (RFC 8628). Every database call is one step, and requests interleave between them
    (mindin/auth/hosted.py:178-269, mindin/auth/device.py:70-160, 244-272, mindin/auth/hosted_store.py:697-800). */
module Secrets {
  import opened Texts

  type Secret = string

  datatype Source = Code(code: Secret) | Refresh(token: Secret) | DeviceCode(device: Secret)

  /** A row that can still be consumed, one that a request consumed, or one that expiry or a revocation removed. */
  datatype Fate = Live | Used(thread: nat) | Gone

  /** What a secret stands for. */
  datatype Grant = Grant(client: string, account: string, vault: string, scopes: set<string>, expires: real)

  datatype Decision = Pending | Denied | Approved(account: string, vault: string, granted: set<string>)

  datatype Device = Device(client: string, scopes: set<string>, expires: real, decision: Decision, interval: nat,
                           lastPoll: Option<real>)

  const READ_SCOPE := "notes:read"
  const WRITE_SCOPE := "notes:write"
  const DEVICE_INTERVAL: nat := 5
  const SLOW_DOWN_STEP: nat := 5

  /** Where a request for tokens or for a key stands. `Ready` has only the consuming step and the checks before it. */
  datatype Phase =
    | Reading
    | Polled(row: Device, moment: real)
    | Ready(grant: Grant)
    | Took(grant: Grant)
    | Half(grant: Grant)
    | Done
    | Stopped

  /** `asked` are the scopes that a refresh asks for, none for those of the token. */
  datatype Request = Request(source: Source, client: string, asked: set<string>, phase: Phase)

  /** A person on the device page: the row is read, and later updated by its code alone. */
  datatype Person = Person(account: string, device: Secret, row: Option<Device>)

  datatype State = State(fates: map<Source, Fate>, codes: map<Secret, Grant>, refreshes: map<Secret, Grant>,
                         devices: map<Secret, Device>, requests: map<nat, Request>, people: map<nat, Person>)

  datatype Event =
    | MintCode(code: Secret, grant: Grant)
    | StartDevice(device: Secret, client: string, scopes: set<string>, expires: real)
    | Remove(source: Source)
    | Begin(id: nat, source: Source, client: string, asked: set<string>)
    | Load(id: nat)
    | Poll(id: nat, moment: real)
    | Judge(id: nat)
    | Take(id: nat)
    | Refuse(id: nat)
    | SaveAccess(id: nat, now: real)
    | SaveRefresh(id: nat, token: Secret, expires: real)
    | MakeKey(id: nat)
    | Visit(person: nat, account: string, device: Secret)
    | SeePending(person: nat, moment: real)
    | Deny(person: nat)
    | Approve(person: nat, vault: string, write: bool)

  datatype Trace = First(state: State) | More(before: Trace, event: Event, state: State)

  predicate IsLive(s: State, source: Source) {
    source in s.fates && s.fates[source].Live?
  }

  function Moved(s: State, id: nat, phase: Phase): State
    requires id in s.requests
  {
    s.(requests := s.requests[id := s.requests[id].(phase := phase)])
  }

  predicate TooSoon(row: Device, moment: real) {
    row.lastPoll.Some? && moment - row.lastPoll.value < row.interval as real
  }

  /** A device after a poll that read `row`: one that comes too soon is told to slow down. */
  function PolledDevice(device: Device, row: Device, moment: real): (polled: Device)
    ensures SameAsk(device, polled) && polled.decision == device.decision
  {
    device.(lastPoll := Some(moment),
            interval := if TooSoon(row, moment) then row.interval + SLOW_DOWN_STEP else device.interval)
  }

  /** The rows of one device at two times: same scopes and same expiry. */
  predicate SameAsk(row: Device, other: Device) {
    row.scopes == other.scopes && row.expires == other.expires
  }

  /** What a poll writes, having read `row`: the update goes by the code, and finds no row once it has been dropped. */
  function JudgedRow(s: State, d: Secret, row: Device, moment: real): State {
    if !IsLive(s, DeviceCode(d)) || d !in s.devices then s
    else if row.expires < moment then s.(fates := s.fates[DeviceCode(d) := Gone])
    else s.(devices := s.devices[d := PolledDevice(s.devices[d], row, moment)])
  }

  function JudgedPhase(row: Device, moment: real): Phase {
    if row.expires < moment || TooSoon(row, moment) then Stopped
    else
      match row.decision
      case Pending => Stopped
      case Denied => Ready(Grant(row.client, "", "", {}, row.expires))
      case Approved(account, vault, granted) => Ready(Grant(row.client, account, vault, granted, row.expires))
  }

  /** The row a token request reads, if it is live and the client's own. */
  function Found(s: State, r: Request): Option<Grant> {
    if !IsLive(s, r.source) then None
    else
      match r.source
      case Code(c) => if c in s.codes && s.codes[c].client == r.client then Some(s.codes[c]) else None
      case Refresh(t) => if t in s.refreshes && s.refreshes[t].client == r.client then Some(s.refreshes[t]) else None
      case DeviceCode(_) => None
  }

  /** The scopes issued: those of the code, or what the refresh asks for, as it stands, or else those of the token. */
  function Issued(r: Request): set<string>
    requires r.phase.Half?
  {
    if r.source.Refresh? && r.asked != {} then r.asked else r.phase.grant.scopes
  }

  ghost predicate Step(s: State, e: Event, t: State) {
    match e
    case MintCode(code, grant) =>
      && Code(code) !in s.fates
      && t == s.(fates := s.fates[Code(code) := Live], codes := s.codes[code := grant])
    case StartDevice(device, client, scopes, expires) =>
      && DeviceCode(device) !in s.fates && READ_SCOPE in scopes
      && t == s.(fates := s.fates[DeviceCode(device) := Live],
                 devices := s.devices[device := Device(client, scopes, expires, Pending, DEVICE_INTERVAL, None)])
    case Remove(source) => IsLive(s, source) && t == s.(fates := s.fates[source := Gone])
    case Begin(id, source, client, asked) =>
      id !in s.requests && t == s.(requests := s.requests[id := Request(source, client, asked, Reading)])
    case Load(id) =>
      && id in s.requests && s.requests[id].phase.Reading? && !s.requests[id].source.DeviceCode?
      && var found := Found(s, s.requests[id]);
         t == Moved(s, id, if found.Some? then Ready(found.value) else Stopped)
    case Poll(id, moment) =>
      && id in s.requests && s.requests[id].phase.Reading? && s.requests[id].source.DeviceCode?
      && var d := s.requests[id].source.device;
         t == Moved(s, id, if IsLive(s, DeviceCode(d)) && d in s.devices && s.devices[d].client == s.requests[id].client
                           then Polled(s.devices[d], moment) else Stopped)
    case Judge(id) =>
      && id in s.requests && s.requests[id].phase.Polled? && s.requests[id].source.DeviceCode?
      && var row, moment, d := s.requests[id].phase.row, s.requests[id].phase.moment, s.requests[id].source.device;
         t == Moved(JudgedRow(s, d, row, moment), id, JudgedPhase(row, moment))
    case Take(id) =>
      && id in s.requests && s.requests[id].phase.Ready?
      && t == if IsLive(s, s.requests[id].source)
              then Moved(s.(fates := s.fates[s.requests[id].source := Used(id)]), id, Took(s.requests[id].phase.grant))
              else Moved(s, id, Stopped)
    case Refuse(id) =>
      id in s.requests && s.requests[id].phase.Took? && t == Moved(s, id, Stopped)
    case SaveAccess(id, now) =>
      && id in s.requests && s.requests[id].phase.Took? && !s.requests[id].source.DeviceCode?
      && (s.requests[id].source.Code? ==> now <= s.requests[id].phase.grant.expires)
      && t == Moved(s, id, Half(s.requests[id].phase.grant))
    case SaveRefresh(id, token, expires) =>
      && id in s.requests && s.requests[id].phase.Half? && Refresh(token) !in s.fates
      && var grant := s.requests[id].phase.grant.(scopes := Issued(s.requests[id]), expires := expires);
         t == Moved(s.(fates := s.fates[Refresh(token) := Live], refreshes := s.refreshes[token := grant]), id, Done)
    case MakeKey(id) =>
      && id in s.requests && s.requests[id].phase.Took? && s.requests[id].source.DeviceCode?
      && s.requests[id].phase.grant.account != ""
      && t == Moved(s, id, Done)
    case Visit(person, account, device) =>
      person !in s.people && account != "" && t == s.(people := s.people[person := Person(account, device, None)])
    case SeePending(person, moment) =>
      && person in s.people && s.people[person].row.None?
      && var d := s.people[person].device;
         && IsLive(s, DeviceCode(d)) && d in s.devices && s.devices[d].decision.Pending? && moment <= s.devices[d].expires
         && t == s.(people := s.people[person := s.people[person].(row := Some(s.devices[d]))])
    case Deny(person) =>
      && person in s.people && s.people[person].row.Some?
      && t == Decided(s, s.people[person].device, Denied)
    case Approve(person, vault, write) =>
      && person in s.people && s.people[person].row.Some?
      && t == Decided(s, s.people[person].device,
                      Approved(s.people[person].account, vault, GrantedScopes(s.people[person].row.value, write)))
  }

  /** Read, and write when both the person and the device ask for it. */
  function GrantedScopes(row: Device, write: bool): set<string> {
    if write && WRITE_SCOPE in row.scopes then {READ_SCOPE, WRITE_SCOPE} else {READ_SCOPE}
  }

  function Decided(s: State, device: Secret, decision: Decision): State {
    if IsLive(s, DeviceCode(device)) && device in s.devices
    then s.(devices := s.devices[device := s.devices[device].(decision := decision)]) else s
  }

  /** From an empty store. */
  ghost predicate Run(t: Trace) {
    match t
    case First(s) => s == State(map[], map[], map[], map[], map[], map[])
    case More(before, e, s) => Run(before) && Step(before.state, e, s)
  }

  // ---- at most once ----

  predicate Consumes(s: State, id: nat, source: Source) {
    id in s.requests && s.requests[id].source == source
    && (s.requests[id].phase.Took? || s.requests[id].phase.Half? || s.requests[id].phase.Done?)
  }

  /** Only the request that consumed a secret has got past the consuming step. */
  predicate OneTaker(s: State) {
    forall id :: id in s.requests && Consumes(s, id, s.requests[id].source) ==>
      s.requests[id].source in s.fates && s.fates[s.requests[id].source] == Used(id)
  }

  /** Requests as they were, and no consumed secret forgotten. */
  predicate Untouched(s: State, t: State) {
    t.requests == s.requests && forall source :: source in s.fates && s.fates[source].Used? ==>
      source in t.fates && t.fates[source] == s.fates[source]
  }

  lemma UntouchedKeepsOneTaker(s: State, t: State)
    requires OneTaker(s) && Untouched(s, t)
    ensures OneTaker(t)
  {
    forall id | id in t.requests && Consumes(t, id, t.requests[id].source)
      ensures t.requests[id].source in t.fates && t.fates[t.requests[id].source] == Used(id)
    {
      assert Consumes(s, id, s.requests[id].source);
    }
  }

  predicate MovesARequest(e: Event) {
    e.Load? || e.Poll? || e.Judge? || e.Take? || e.Refuse? || e.SaveAccess? || e.SaveRefresh? || e.MakeKey?
  }

  predicate Consuming(phase: Phase) {
    phase.Took? || phase.Half? || phase.Done?
  }

  predicate FatesKept(s: State, t: State) {
    forall source :: source in s.fates && s.fates[source].Used? ==> source in t.fates && t.fates[source] == s.fates[source]
  }

  /** One request moved on; it is past the consuming step only if the secret is marked as its own. */
  predicate MovedOn(s: State, id: nat, t: State) {
    && id in s.requests && id in t.requests
    && t.requests == s.requests[id := s.requests[id].(phase := t.requests[id].phase)] && FatesKept(s, t)
    && (Consuming(t.requests[id].phase) ==>
          s.requests[id].source in t.fates && t.fates[s.requests[id].source] == Used(id))
  }

  lemma MovedOnKeepsOneTaker(s: State, id: nat, t: State)
    requires OneTaker(s) && MovedOn(s, id, t)
    ensures OneTaker(t)
  {
    forall k | k in t.requests && Consumes(t, k, t.requests[k].source)
      ensures t.requests[k].source in t.fates && t.fates[t.requests[k].source] == Used(k)
    {
      if k != id {
        assert Consumes(s, k, s.requests[k].source);
      }
    }
  }

  lemma ReadingMoves(s: State, e: Event, t: State)
    requires OneTaker(s) && Step(s, e, t) && (e.Load? || e.Poll? || e.Refuse?)
    ensures MovedOn(s, e.id, t)
  {
  }

  lemma JudgeMoves(s: State, e: Event, t: State)
    requires OneTaker(s) && Step(s, e, t) && e.Judge?
    ensures MovedOn(s, e.id, t)
  {
  }

  lemma TakeMoves(s: State, e: Event, t: State)
    requires OneTaker(s) && Step(s, e, t) && e.Take?
    ensures MovedOn(s, e.id, t)
  {
  }

  lemma IssueMoves(s: State, e: Event, t: State)
    requires OneTaker(s) && Step(s, e, t) && (e.SaveAccess? || e.SaveRefresh? || e.MakeKey?)
    ensures MovedOn(s, e.id, t)
  {
    assert Consumes(s, e.id, s.requests[e.id].source);
  }

  lemma BeginKeepsOneTaker(s: State, e: Event, t: State)
    requires OneTaker(s) && Step(s, e, t) && e.Begin?
    ensures OneTaker(t)
  {
    forall id | id in t.requests && Consumes(t, id, t.requests[id].source)
      ensures t.requests[id].source in t.fates && t.fates[t.requests[id].source] == Used(id)
    {
      assert Consumes(s, id, s.requests[id].source);
    }
  }

  lemma RequestMoves(s: State, e: Event, t: State)
    requires OneTaker(s) && Step(s, e, t) && MovesARequest(e)
    ensures MovedOn(s, e.id, t)
  {
    if e.Load? || e.Poll? || e.Refuse? {
      ReadingMoves(s, e, t);
    } else if e.Judge? {
      JudgeMoves(s, e, t);
    } else if e.Take? {
      TakeMoves(s, e, t);
    } else {
      IssueMoves(s, e, t);
    }
  }

  lemma StepKeepsOneTaker(s: State, e: Event, t: State)
    requires OneTaker(s) && Step(s, e, t)
    ensures OneTaker(t)
  {
    if MovesARequest(e) {
      RequestMoves(s, e, t);
      MovedOnKeepsOneTaker(s, e.id, t);
    } else if e.Begin? {
      BeginKeepsOneTaker(s, e, t);
    } else {
      UntouchedKeepsOneTaker(s, t);
    }
  }

  lemma {:induction false} AlwaysOneTaker(t: Trace)
    requires Run(t)
    ensures OneTaker(t.state)
  {
    if t.More? {
      AlwaysOneTaker(t.before);
      StepKeepsOneTaker(t.before.state, t.event, t.state);
    }
  }

  /** The access tokens saved, the refresh tokens saved and the keys made for a secret, over a run. */
  function Accesses(t: Trace, source: Source): nat {
    if t.First? then 0 else Accesses(t.before, source) + AccessBy(t.before.state, t.event, source)
  }

  function Successors(t: Trace, source: Source): nat {
    if t.First? then 0 else Successors(t.before, source) + SuccessorBy(t.before.state, t.event, source)
  }

  function Keys(t: Trace, source: Source): nat {
    if t.First? then 0 else Keys(t.before, source) + KeyBy(t.before.state, t.event, source)
  }

  predicate Serves(s: State, id: nat, source: Source) {
    id in s.requests && s.requests[id].source == source
  }

  /** Where the request that consumed a secret stands. */
  function Taker(s: State, source: Source): Phase {
    if source in s.fates && s.fates[source].Used? && Serves(s, s.fates[source].thread, source)
    then s.requests[s.fates[source].thread].phase else Reading
  }

  predicate Issues(e: Event) {
    e.SaveAccess? || e.SaveRefresh? || e.MakeKey?
  }

  /** A request that issues something is the taker of its secret. */
  lemma IssuerIsTaker(s: State, e: Event, t: State)
    requires OneTaker(s) && Step(s, e, t) && Issues(e)
    ensures e.id in s.requests
    ensures var source := s.requests[e.id].source;
      Taker(s, source) == s.requests[e.id].phase && Taker(t, source) == t.requests[e.id].phase
      && forall other :: other != source ==> Taker(t, other) == Taker(s, other)
  {
    var source := s.requests[e.id].source;
    assert Consumes(s, e.id, source);
    forall other | other != source ensures Taker(t, other) == Taker(s, other) {
      assert source in s.fates && other in t.fates && t.fates[other].Used? ==> other in s.fates && t.fates[other] == s.fates[other];
    }
  }

  /** No secret has been consumed in between. */
  predicate NoneTaken(s: State, t: State) {
    forall source :: source in t.fates && t.fates[source].Used? ==> source in s.fates && s.fates[source] == t.fates[source]
  }

  lemma StillUnissued(s: State, id: nat, t: State, source: Source)
    requires MovedOn(s, id, t) && NoneTaken(s, t)
    requires !s.requests[id].phase.Half? && !s.requests[id].phase.Done? && !Consuming(t.requests[id].phase)
    ensures Taker(t, source).Half? <==> Taker(s, source).Half?
    ensures Taker(t, source).Done? <==> Taker(s, source).Done?
  {
  }

  lemma ReadingIssuesNothing(s: State, e: Event, t: State, source: Source)
    requires OneTaker(s) && Step(s, e, t) && (e.Load? || e.Poll? || e.Refuse?)
    ensures Taker(t, source).Half? <==> Taker(s, source).Half?
    ensures Taker(t, source).Done? <==> Taker(s, source).Done?
  {
    ReadingMoves(s, e, t);
    StillUnissued(s, e.id, t, source);
  }

  lemma TakingIssuesNothing(s: State, e: Event, t: State, source: Source)
    requires OneTaker(s) && Step(s, e, t) && e.Take?
    ensures Taker(t, source).Half? <==> Taker(s, source).Half?
    ensures Taker(t, source).Done? <==> Taker(s, source).Done?
  {
    TakeMoves(s, e, t);
    var own := s.requests[e.id].source;
    if !IsLive(s, own) {
      StillUnissued(s, e.id, t, source);
    } else if source == own {
      assert Taker(s, source) == Reading && Taker(t, source).Took?;
    } else {
      assert source in t.fates <==> source in s.fates;
      assert source in s.fates ==> t.fates[source] == s.fates[source];
    }
  }

  lemma JudgingIssuesNothing(s: State, e: Event, t: State, source: Source)
    requires OneTaker(s) && Step(s, e, t) && e.Judge?
    ensures Taker(t, source).Half? <==> Taker(s, source).Half?
    ensures Taker(t, source).Done? <==> Taker(s, source).Done?
  {
    JudgeMoves(s, e, t);
    JudgeTakesNone(s, e, t);
    StillUnissued(s, e.id, t, source);
  }

  lemma JudgeTakesNone(s: State, e: Event, t: State)
    requires Step(s, e, t) && e.Judge?
    ensures NoneTaken(s, t) && !Consuming(t.requests[e.id].phase)
  {
  }

  lemma RowsIssueNothing(s: State, e: Event, t: State, source: Source)
    requires OneTaker(s) && Step(s, e, t) && !MovesARequest(e)
    ensures Taker(t, source).Half? <==> Taker(s, source).Half?
    ensures Taker(t, source).Done? <==> Taker(s, source).Done?
  {
  }

  /** No other step brings a taker past an issue. */
  lemma OthersIssueNothing(s: State, e: Event, t: State, source: Source)
    requires OneTaker(s) && Step(s, e, t) && !Issues(e)
    ensures Taker(t, source).Half? <==> Taker(s, source).Half?
    ensures Taker(t, source).Done? <==> Taker(s, source).Done?
  {
    if e.Judge? {
      JudgingIssuesNothing(s, e, t, source);
    } else if e.Take? {
      TakingIssuesNothing(s, e, t, source);
    } else if MovesARequest(e) {
      ReadingIssuesNothing(s, e, t, source);
    } else {
      RowsIssueNothing(s, e, t, source);
    }
  }

  /** What a step issues for a secret. */
  function AccessBy(s: State, e: Event, source: Source): nat {
    if e.SaveAccess? && Serves(s, e.id, source) then 1 else 0
  }

  function SuccessorBy(s: State, e: Event, source: Source): nat {
    if e.SaveRefresh? && Serves(s, e.id, source) then 1 else 0
  }

  function KeyBy(s: State, e: Event, source: Source): nat {
    if e.MakeKey? && Serves(s, e.id, source) then 1 else 0
  }

  /** What has been issued to a taker that has got to a phase. */
  function AccessesAt(source: Source, phase: Phase): nat {
    if !source.DeviceCode? && (phase.Half? || phase.Done?) then 1 else 0
  }

  function SuccessorsAt(source: Source, phase: Phase): nat {
    if !source.DeviceCode? && phase.Done? then 1 else 0
  }

  function KeysAt(source: Source, phase: Phase): nat {
    if source.DeviceCode? && phase.Done? then 1 else 0
  }

  lemma IssueCounts(s: State, e: Event, t: State, source: Source)
    requires OneTaker(s) && Step(s, e, t) && Issues(e) && (source.DeviceCode? ==> !Taker(s, source).Half?)
    ensures AccessesAt(source, Taker(t, source)) == AccessesAt(source, Taker(s, source)) + AccessBy(s, e, source)
    ensures SuccessorsAt(source, Taker(t, source)) == SuccessorsAt(source, Taker(s, source)) + SuccessorBy(s, e, source)
    ensures KeysAt(source, Taker(t, source)) == KeysAt(source, Taker(s, source)) + KeyBy(s, e, source)
    ensures source.DeviceCode? ==> !Taker(t, source).Half?
  {
    IssuerIsTaker(s, e, t);
  }

  /** What has been issued for a secret is exactly what its one taker has got to. */
  lemma {:induction false} IssuedIsTaken(t: Trace, source: Source)
    requires Run(t)
    ensures Accesses(t, source) == AccessesAt(source, Taker(t.state, source))
    ensures Successors(t, source) == SuccessorsAt(source, Taker(t.state, source))
    ensures Keys(t, source) == KeysAt(source, Taker(t.state, source))
    ensures source.DeviceCode? ==> !Taker(t.state, source).Half?
  {
    if t.More? {
      IssuedIsTaken(t.before, source);
      AlwaysOneTaker(t.before);
      if Issues(t.event) {
        IssueCounts(t.before.state, t.event, t.state, source);
      } else {
        OthersIssueNothing(t.before.state, t.event, t.state, source);
      }
    }
  }

  /** Each authorization code and each refresh token yields at most one access token and one refresh token, and each
      device code at most one key, however requests interleave. */
  lemma AtMostOnce(t: Trace, source: Source)
    requires Run(t)
    ensures Successors(t, source) <= Accesses(t, source) <= 1 && Keys(t, source) <= 1
    ensures source.DeviceCode? ==> Accesses(t, source) == 0
    ensures !source.DeviceCode? ==> Keys(t, source) == 0
  {
    IssuedIsTaken(t, source);
  }

  // ---- what a secret is exchanged for ----

  /** For the same client, account and vault. */
  predicate SameBinding(a: Grant, b: Grant) {
    a.client == b.client && a.account == b.account && a.vault == b.vault
  }

  /** What a request carries is what the secret stands for. */
  predicate Carries(s: State, r: Request) {
    r.phase.Ready? || r.phase.Took? || r.phase.Half? ==>
      match r.source
      case Code(c) => c in s.codes && r.phase.grant == s.codes[c] && r.client == s.codes[c].client
      case Refresh(x) => x in s.refreshes && r.phase.grant == s.refreshes[x] && r.client == s.refreshes[x].client
      case DeviceCode(_) => !r.phase.Half?
  }

  predicate RequestsCarry(s: State) {
    forall id :: id in s.requests ==> Carries(s, s.requests[id])
  }

  predicate SecretsHaveFates(s: State) {
    && (forall c :: c in s.codes ==> Code(c) in s.fates)
    && (forall x :: x in s.refreshes ==> Refresh(x) in s.fates)
  }

  /** Rows are written once: a secret is never given another grant. */
  predicate GrantsKept(s: State, t: State) {
    && (forall c :: c in s.codes ==> c in t.codes && t.codes[c] == s.codes[c])
    && (forall x :: x in s.refreshes ==> x in t.refreshes && t.refreshes[x] == s.refreshes[x])
  }

  predicate NoNewGrants(s: State, t: State) {
    t.codes == s.codes && t.refreshes == s.refreshes && s.fates.Keys <= t.fates.Keys
  }

  lemma JudgeWritesNoGrants(s: State, e: Event, t: State)
    requires Step(s, e, t) && e.Judge?
    ensures NoNewGrants(s, t)
  {
  }

  lemma MovesWriteNoGrants(s: State, e: Event, t: State)
    requires Step(s, e, t) && MovesARequest(e) && !e.SaveRefresh? && !e.Judge?
    ensures NoNewGrants(s, t)
  {
  }

  lemma RowsWriteNoGrants(s: State, e: Event, t: State)
    requires Step(s, e, t) && !MovesARequest(e) && !e.MintCode?
    ensures NoNewGrants(s, t)
  {
  }

  lemma StepKeepsGrants(s: State, e: Event, t: State)
    requires Step(s, e, t) && SecretsHaveFates(s)
    ensures GrantsKept(s, t) && SecretsHaveFates(t)
  {
    if e.Judge? {
      JudgeWritesNoGrants(s, e, t);
    } else if MovesARequest(e) && !e.SaveRefresh? {
      MovesWriteNoGrants(s, e, t);
    } else if !e.SaveRefresh? && !e.MintCode? {
      RowsWriteNoGrants(s, e, t);
    }
  }

  lemma StillCarries(s: State, t: State, r: Request)
    requires GrantsKept(s, t) && Carries(s, r)
    ensures Carries(t, r)
  {
  }

  lemma LoadCarries(s: State, e: Event, t: State)
    requires Step(s, e, t) && e.Load?
    ensures e.id in t.requests && Carries(s, t.requests[e.id])
  {
  }

  lemma PollCarries(s: State, e: Event, t: State)
    requires Step(s, e, t) && (e.Poll? || e.Judge?)
    ensures e.id in t.requests && Carries(s, t.requests[e.id])
  {
  }

  lemma RefuserCarries(s: State, e: Event, t: State)
    requires Step(s, e, t) && e.Refuse?
    ensures e.id in t.requests && Carries(s, t.requests[e.id])
  {
  }

  lemma TakerCarries(s: State, e: Event, t: State)
    requires Step(s, e, t) && e.Take? && Carries(s, s.requests[e.id])
    ensures e.id in t.requests && Carries(s, t.requests[e.id])
  {
    var r := s.requests[e.id];
    assert t.requests[e.id] == r.(phase := if IsLive(s, r.source) then Took(r.phase.grant) else Stopped);
  }

  lemma IssuerCarries(s: State, e: Event, t: State)
    requires Step(s, e, t) && Issues(e) && Carries(s, s.requests[e.id])
    ensures e.id in t.requests && Carries(s, t.requests[e.id])
  {
  }

  /** The request that moved carries what it read, or what it carried. */
  lemma MoverCarries(s: State, e: Event, t: State)
    requires Step(s, e, t) && MovesARequest(e) && Carries(s, s.requests[e.id])
    ensures e.id in t.requests && Carries(s, t.requests[e.id])
  {
    if e.Load? {
      LoadCarries(s, e, t);
    } else if e.Poll? || e.Judge? {
      PollCarries(s, e, t);
    } else if Issues(e) {
      IssuerCarries(s, e, t);
    } else if e.Refuse? {
      RefuserCarries(s, e, t);
    } else {
      TakerCarries(s, e, t);
    }
  }

  lemma StepKeepsCarrying(s: State, e: Event, t: State)
    requires Step(s, e, t) && SecretsHaveFates(s) && RequestsCarry(s) && OneTaker(s)
    ensures RequestsCarry(t)
  {
    StepKeepsGrants(s, e, t);
    if MovesARequest(e) {
      RequestMoves(s, e, t);
      MoverCarries(s, e, t);
    }
    forall id | id in t.requests ensures Carries(t, t.requests[id]) {
      StillCarries(s, t, t.requests[id]);
    }
  }

  lemma {:induction false} AlwaysCarries(t: Trace)
    requires Run(t)
    ensures SecretsHaveFates(t.state) && RequestsCarry(t.state)
  {
    if t.More? {
      AlwaysCarries(t.before);
      AlwaysOneTaker(t.before);
      StepKeepsGrants(t.before.state, t.event, t.state);
      StepKeepsCarrying(t.before.state, t.event, t.state);
    }
  }

  /** The scopes along a chain of exchanges, from the code to the token. */
  ghost function Chain(t: Trace, token: Secret): seq<set<string>> {
    if t.First? || token !in t.state.refreshes then []
    else if token in t.before.state.refreshes then Chain(t.before, token)
    else if t.event.SaveRefresh? && t.event.id in t.before.state.requests then
      match t.before.state.requests[t.event.id].source
      case Code(c) =>
        (if c in t.before.state.codes then [t.before.state.codes[c].scopes] else []) + [t.state.refreshes[token].scopes]
      case Refresh(parent) => Chain(t.before, parent) + [t.state.refreshes[token].scopes]
      case DeviceCode(_) => []
    else []
  }

  /** The code at the root of a chain. */
  ghost function Root(t: Trace, token: Secret): Option<Secret> {
    if t.First? || token !in t.state.refreshes then None
    else if token in t.before.state.refreshes then Root(t.before, token)
    else if t.event.SaveRefresh? && t.event.id in t.before.state.requests then
      match t.before.state.requests[t.event.id].source
      case Code(c) => Some(c)
      case Refresh(parent) => Root(t.before, parent)
      case DeviceCode(_) => None
    else None
  }

  /** Every refresh along the chain asked for scopes of the token it loaded, or for none. */
  ghost predicate AskedWithin(t: Trace, token: Secret) {
    t.First? || token !in t.state.refreshes ||
    if token in t.before.state.refreshes then AskedWithin(t.before, token)
    else
      t.event.SaveRefresh? && t.event.id in t.before.state.requests ==>
        var r := t.before.state.requests[t.event.id];
        r.source.Refresh? ==>
          && AskedWithin(t.before, r.source.token)
          && (r.source.token in t.before.state.refreshes ==>
                r.asked <= t.before.state.refreshes[r.source.token].scopes)
  }

  /** No link of a chain has a scope that an earlier one lacks. */
  predicate Descending(chain: seq<set<string>>) {
    forall i, j :: 0 <= i <= j < |chain| ==> chain[j] <= chain[i]
  }

  lemma DescendingOn(chain: seq<set<string>>, next: set<string>)
    requires chain != []
    ensures Descending(chain + [next]) <==> Descending(chain) && next <= chain[|chain| - 1]
  {
    var all, n := chain + [next], |chain|;
    if Descending(all) {
      assert all[n] <= all[n - 1];
      forall i, j | 0 <= i <= j < n ensures chain[j] <= chain[i] {
        assert all[j] <= all[i];
      }
    }
  }

  /** A chain from its code to its token. */
  ghost predicate ChainIs(t: Trace, token: Secret, codes: map<Secret, Grant>, grant: Grant) {
    var chain, root := Chain(t, token), Root(t, token);
    && root.Some? && root.value in codes && |chain| >= 2
    && chain[0] == codes[root.value].scopes && chain[|chain| - 1] == grant.scopes
    && SameBinding(grant, codes[root.value])
  }

  lemma NewTokenIsSaved(s: State, e: Event, t: State, token: Secret)
    requires Step(s, e, t) && token in t.refreshes && token !in s.refreshes
    ensures e.SaveRefresh? && e.id in s.requests && s.requests[e.id].phase.Half?
    ensures t.refreshes[token].scopes == Issued(s.requests[e.id])
    ensures SameBinding(t.refreshes[token], s.requests[e.id].phase.grant)
  {
    if e.Judge? {
      JudgeWritesNoGrants(s, e, t);
    } else if MovesARequest(e) && !e.SaveRefresh? {
      MovesWriteNoGrants(s, e, t);
    } else if !e.SaveRefresh? && !e.MintCode? {
      RowsWriteNoGrants(s, e, t);
    }
  }

  /** Every refresh token hangs by a chain from a code minted for the same client, account and vault, whatever its
      exchanges asked for; and no scope is gained anywhere along the chain if and only if each refresh asked within the
      token it loaded. */
  lemma {:induction false} ChainDescendsExactly(t: Trace, token: Secret)
    requires Run(t) && token in t.state.refreshes
    ensures ChainIs(t, token, t.state.codes, t.state.refreshes[token])
    ensures Descending(Chain(t, token)) <==> AskedWithin(t, token)
    decreases t, 1
  {
    var s := t.before.state;
    AlwaysCarries(t.before);
    StepKeepsGrants(s, t.event, t.state);
    if token in s.refreshes {
      ChainDescendsExactly(t.before, token);
    } else {
      NewTokenIsSaved(s, t.event, t.state, token);
      var r := s.requests[t.event.id];
      assert Carries(s, r);
      if r.source.Refresh? {
        LinkDescendsExactly(t, token, r);
      } else {
        DescendingOn([s.codes[r.source.code].scopes], t.state.refreshes[token].scopes);
      }
    }
  }

  /** The same for a token just made from another one. */
  lemma {:induction false} LinkDescendsExactly(t: Trace, token: Secret, r: Request)
    requires Run(t) && t.More? && token in t.state.refreshes && token !in t.before.state.refreshes
    requires t.event.SaveRefresh? && t.event.id in t.before.state.requests && r == t.before.state.requests[t.event.id]
    requires r.source.Refresh? && r.phase.Half? && Carries(t.before.state, r)
    requires t.state.refreshes[token].scopes == Issued(r) && SameBinding(t.state.refreshes[token], r.phase.grant)
    requires GrantsKept(t.before.state, t.state)
    ensures ChainIs(t, token, t.state.codes, t.state.refreshes[token])
    ensures Descending(Chain(t, token)) <==> AskedWithin(t, token)
    decreases t, 0
  {
    var parent := r.source.token;
    ChainDescendsExactly(t.before, parent);
    DescendingOn(Chain(t.before, parent), t.state.refreshes[token].scopes);
    assert Issued(r) <= r.phase.grant.scopes <==> r.asked <= r.phase.grant.scopes;
  }

  /** As long as each refresh asks within the token it loaded, a refresh token has no scope that its code was not minted
      with, however long the chain. */
  lemma RefreshesNeverWiden(t: Trace, token: Secret)
    requires Run(t) && token in t.state.refreshes && AskedWithin(t, token)
    ensures Root(t, token).Some? && Root(t, token).value in t.state.codes
    ensures t.state.refreshes[token].scopes <= t.state.codes[Root(t, token).value].scopes
  {
    ChainDescendsExactly(t, token);
  }

  /** The scopes that the last refresh of a chain to ask for any asked for. */
  ghost function LastAsked(t: Trace, token: Secret): Option<set<string>> {
    if t.First? || token !in t.state.refreshes then None
    else if token in t.before.state.refreshes then LastAsked(t.before, token)
    else if t.event.SaveRefresh? && t.event.id in t.before.state.requests then
      var r := t.before.state.requests[t.event.id];
      if !r.source.Refresh? then None
      else if r.asked != {} then Some(r.asked)
      else LastAsked(t.before, r.source.token)
    else None
  }

  /** A refresh token stays within its code's scopes if and only if the last refresh of its chain to ask for any scopes
      asked within them: the server itself checks no refresh against the code, nor against the token it loads. */
  lemma {:induction false} WithinTheCodeExactly(t: Trace, token: Secret)
    requires Run(t) && token in t.state.refreshes
    ensures Root(t, token).Some? && Root(t, token).value in t.state.codes
    ensures var minted, asked := t.state.codes[Root(t, token).value].scopes, LastAsked(t, token);
      && t.state.refreshes[token].scopes == (if asked.Some? then asked.value else minted)
      && (t.state.refreshes[token].scopes <= minted <==> asked.None? || asked.value <= minted)
  {
    var s := t.before.state;
    ChainDescendsExactly(t, token);
    AlwaysCarries(t.before);
    StepKeepsGrants(s, t.event, t.state);
    if token in s.refreshes {
      ChainDescendsExactly(t.before, token);
      WithinTheCodeExactly(t.before, token);
    } else {
      NewTokenIsSaved(s, t.event, t.state, token);
      var r := s.requests[t.event.id];
      assert Carries(s, r);
      if r.source.Refresh? {
        ChainDescendsExactly(t.before, r.source.token);
        WithinTheCodeExactly(t.before, r.source.token);
      }
    }
  }

  // ---- device codes ----

  /** Somebody approved the device, for this account and vault and these scopes. */
  ghost predicate WasApproved(t: Trace, device: Secret, account: string, vault: string, scopes: set<string>) {
    t.More? &&
    (WasApproved(t.before, device, account, vault, scopes)
     || (t.event.Approve? && t.event.person in t.before.state.people
         && var p := t.before.state.people[t.event.person];
            p.device == device && p.account == account && t.event.vault == vault && p.row.Some?
            && scopes == GrantedScopes(p.row.value, t.event.write)))
  }

  /** A request of this device polled at this moment. */
  ghost predicate WasPolled(t: Trace, id: nat, device: Secret, moment: real) {
    t.More? && (WasPolled(t.before, id, device, moment)
                || (t.event == Poll(id, moment) && Serves(t.before.state, id, DeviceCode(device))))
  }

  ghost predicate Backed(t: Trace, device: Secret, row: Device) {
    && READ_SCOPE in row.scopes
    && (row.decision.Approved? ==>
          row.decision.account != ""
          && row.decision.granted <= row.scopes
          && WasApproved(t, device, row.decision.account, row.decision.vault, row.decision.granted))
  }

  ghost predicate DevicesBacked(t: Trace) {
    forall d :: d in t.state.devices ==> Backed(t, d, t.state.devices[d])
  }

  ghost predicate PeopleSee(t: Trace) {
    forall p :: p in t.state.people ==> Sees(t.state, t.state.people[p])
  }

  predicate Sees(s: State, p: Person) {
    && p.account != ""
    && (p.row.Some? ==> p.device in s.devices && SameAsk(p.row.value, s.devices[p.device]))
  }

  /** What a poll has read, or what it may be given: an approval, polled for in time. */
  ghost predicate PollBacked(t: Trace, id: nat, r: Request) {
    r.source.DeviceCode? ==>
      && (r.phase.Polled? ==>
            r.source.device in t.state.devices && Backed(t, r.source.device, r.phase.row)
            && SameAsk(r.phase.row, t.state.devices[r.source.device])
            && WasPolled(t, id, r.source.device, r.phase.moment))
      && ((r.phase.Ready? || r.phase.Took?) && r.phase.grant.account != "" ==>
            ApprovedInTime(t, id, r.source.device, r.phase.grant))
  }

  ghost predicate ApprovedInTime(t: Trace, id: nat, device: Secret, grant: Grant) {
    && device in t.state.devices
    && WasApproved(t, device, grant.account, grant.vault, grant.scopes)
    && grant.scopes <= t.state.devices[device].scopes
    && exists moment :: WasPolled(t, id, device, moment) && moment <= t.state.devices[device].expires
  }

  ghost predicate PollsBacked(t: Trace) {
    forall id :: id in t.state.requests ==> PollBacked(t, id, t.state.requests[id])
  }

  predicate DevicesHaveFates(s: State) {
    forall d :: d in s.devices ==> DeviceCode(d) in s.fates
  }

  /** A device's scopes and expiry never change, and a device keeps its row even when its code is dropped. */
  predicate AsksKept(s: State, t: State) {
    forall d :: d in s.devices ==> d in t.devices && SameAsk(s.devices[d], t.devices[d])
  }

  predicate WritesDevices(e: Event) {
    e.StartDevice? || e.Judge? || e.Deny? || e.Approve?
  }

  lemma OthersLeaveDevices(s: State, e: Event, t: State)
    requires Step(s, e, t) && !WritesDevices(e)
    ensures t.devices == s.devices && s.fates.Keys <= t.fates.Keys
  {
  }

  lemma JudgeKeepsDecisions(s: State, e: Event, t: State)
    requires Step(s, e, t) && e.Judge?
    ensures RowsKept(s.devices, t.devices) && t.fates.Keys == s.fates.Keys
  {
    var r := s.requests[e.id];
    JudgedRowKeeps(s, r.source.device, r.phase.row, r.phase.moment);
  }

  predicate RowsKept(devices: map<Secret, Device>, after: map<Secret, Device>) {
    && after.Keys == devices.Keys
    && forall d :: d in devices ==> SameAsk(devices[d], after[d]) && after[d].decision == devices[d].decision
  }

  lemma UpdateKeeps(devices: map<Secret, Device>, d: Secret, device: Device)
    requires d in devices && SameAsk(devices[d], device) && device.decision == devices[d].decision
    ensures RowsKept(devices, devices[d := device])
  {
  }

  lemma JudgedRowKeeps(s: State, d: Secret, row: Device, moment: real)
    ensures var t := JudgedRow(s, d, row, moment);
      RowsKept(s.devices, t.devices) && t.fates.Keys == s.fates.Keys
  {
    if IsLive(s, DeviceCode(d)) && d in s.devices && row.expires >= moment {
      UpdateKeeps(s.devices, d, PolledDevice(s.devices[d], row, moment));
    }
  }

  lemma DecidingKeepsAsks(s: State, device: Secret, decision: Decision)
    ensures AsksKept(s, Decided(s, device, decision))
    ensures Decided(s, device, decision).devices.Keys == s.devices.Keys
    ensures Decided(s, device, decision).fates == s.fates
  {
  }

  lemma WritersKeepAsks(s: State, e: Event, t: State)
    requires Step(s, e, t) && WritesDevices(e) && DevicesHaveFates(s)
    ensures AsksKept(s, t) && DevicesHaveFates(t)
  {
    if e.Judge? {
      JudgeKeepsDecisions(s, e, t);
    } else if e.Deny? {
      DecidingKeepsAsks(s, s.people[e.person].device, Denied);
    } else if e.Approve? {
      var p := s.people[e.person];
      DecidingKeepsAsks(s, p.device, Approved(p.account, e.vault, GrantedScopes(p.row.value, e.write)));
    }
  }

  lemma StepKeepsAsks(s: State, e: Event, t: State)
    requires Step(s, e, t) && DevicesHaveFates(s)
    ensures AsksKept(s, t) && DevicesHaveFates(t)
  {
    if WritesDevices(e) {
      WritersKeepAsks(s, e, t);
    } else {
      OthersLeaveDevices(s, e, t);
    }
  }

  ghost predicate Backs(t: Trace) {
    DevicesHaveFates(t.state) && DevicesBacked(t) && PeopleSee(t) && PollsBacked(t)
  }

  /** A row that has only been polled, or decided as before, is backed as before. */
  lemma StillBacked(t: Trace, device: Secret, row: Device, was: Device)
    requires t.More? && Backed(t.before, device, was) && row.scopes == was.scopes && row.decision == was.decision
    ensures Backed(t, device, row)
  {
  }

  lemma ApprovalIsBacked(t: Trace)
    requires Run(t) && t.More? && Backs(t.before) && t.event.Approve?
    ensures DevicesBacked(t)
  {
    var s, e := t.before.state, t.event;
    var p := s.people[e.person];
    forall d | d in t.state.devices ensures Backed(t, d, t.state.devices[d]) {
      assert Backed(t.before, d, s.devices[d]);
      if t.state.devices[d].decision == s.devices[d].decision {
        StillBacked(t, d, t.state.devices[d], s.devices[d]);
      } else {
        assert d == p.device && SameAsk(p.row.value, s.devices[d]);
        assert WasApproved(t, d, p.account, e.vault, GrantedScopes(p.row.value, e.write));
      }
    }
  }

  lemma DevicesStayBacked(t: Trace)
    requires Run(t) && t.More? && Backs(t.before)
    ensures DevicesBacked(t)
  {
    var s, e := t.before.state, t.event;
    if e.Approve? {
      ApprovalIsBacked(t);
    } else {
      if e.Judge? {
        JudgeKeepsDecisions(s, e, t.state);
      } else if !WritesDevices(e) {
        OthersLeaveDevices(s, e, t.state);
      }
      forall d | d in t.state.devices ensures Backed(t, d, t.state.devices[d]) {
        if d in s.devices && DeviceCode(d) in s.fates && t.state.devices[d].decision == s.devices[d].decision {
          assert Backed(t.before, d, s.devices[d]);
        }
      }
    }
  }

  lemma OthersLeavePeople(s: State, e: Event, t: State)
    requires Step(s, e, t) && !e.Visit? && !e.SeePending?
    ensures t.people == s.people
  {
  }

  lemma PeopleStillSee(t: Trace)
    requires Run(t) && t.More? && Backs(t.before)
    ensures PeopleSee(t)
  {
    var s, e := t.before.state, t.event;
    StepKeepsAsks(s, e, t.state);
    if !e.Visit? && !e.SeePending? {
      OthersLeavePeople(s, e, t.state);
    }
    forall p | p in t.state.people ensures Sees(t.state, t.state.people[p]) {
      assert p in s.people ==> Sees(s, s.people[p]);
    }
  }

  /** A request that did not move is backed as before. */
  lemma StillPollBacked(t: Trace, id: nat, r: Request)
    requires t.More? && PollBacked(t.before, id, r) && AsksKept(t.before.state, t.state)
    ensures PollBacked(t, id, r)
  {
    if r.source.DeviceCode? && (r.phase.Ready? || r.phase.Took?) && r.phase.grant.account != "" {
      var device := r.source.device;
      var moment :| WasPolled(t.before, id, device, moment) && moment <= t.before.state.devices[device].expires;
      assert WasPolled(t, id, device, moment);
    }
  }

  lemma PollIsBacked(t: Trace)
    requires Run(t) && t.More? && Backs(t.before) && t.event.Poll?
    ensures t.event.id in t.state.requests && PollBacked(t, t.event.id, t.state.requests[t.event.id])
  {
    var s, id := t.before.state, t.event.id;
    var d := s.requests[id].source.device;
    if t.state.requests[id].phase.Polled? {
      assert Backed(t.before, d, s.devices[d]);
      StillBacked(t, d, s.devices[d], s.devices[d]);
    }
  }

  lemma JudgementIsBacked(t: Trace)
    requires Run(t) && t.More? && Backs(t.before) && t.event.Judge?
    ensures t.event.id in t.state.requests && PollBacked(t, t.event.id, t.state.requests[t.event.id])
  {
    var s, id := t.before.state, t.event.id;
    var row, moment, d := s.requests[id].phase.row, s.requests[id].phase.moment, s.requests[id].source.device;
    StepKeepsAsks(s, t.event, t.state);
    assert PollBacked(t.before, id, s.requests[id]);
    assert t.state.requests[id].phase == JudgedPhase(row, moment) && t.state.requests[id].source == s.requests[id].source;
    if t.state.requests[id].phase.Ready? && t.state.requests[id].phase.grant.account != "" {
      assert WasPolled(t, id, d, moment) && moment <= t.state.devices[d].expires;
    }
  }

  lemma MoverIsBacked(t: Trace)
    requires Run(t) && t.More? && Backs(t.before) && MovesARequest(t.event) && !t.event.Poll? && !t.event.Judge?
    ensures t.event.id in t.state.requests && PollBacked(t, t.event.id, t.state.requests[t.event.id])
  {
    var s, id := t.before.state, t.event.id;
    StepKeepsAsks(s, t.event, t.state);
    StillPollBacked(t, id, s.requests[id]);
  }

  lemma PollsStayBacked(t: Trace)
    requires Run(t) && t.More? && Backs(t.before)
    ensures PollsBacked(t)
  {
    var s, e := t.before.state, t.event;
    StepKeepsAsks(s, e, t.state);
    AlwaysOneTaker(t.before);
    if e.Poll? {
      PollIsBacked(t);
    } else if e.Judge? {
      JudgementIsBacked(t);
    } else if MovesARequest(e) {
      MoverIsBacked(t);
    }
    if MovesARequest(e) {
      RequestMoves(s, e, t.state);
    }
    forall id | id in t.state.requests ensures PollBacked(t, id, t.state.requests[id]) {
      if id in s.requests && t.state.requests[id] == s.requests[id] {
        StillPollBacked(t, id, s.requests[id]);
      }
    }
  }

  lemma {:induction false} AlwaysBacks(t: Trace)
    requires Run(t)
    ensures Backs(t)
  {
    if t.More? {
      AlwaysBacks(t.before);
      StepKeepsAsks(t.before.state, t.event, t.state);
      DevicesStayBacked(t);
      PeopleStillSee(t);
      PollsStayBacked(t);
    }
  }

  /** A device gets a key only after somebody approved it, for that account and vault and those scopes, which are among
      the ones it asked for, and having polled before its code expired. */
  lemma KeyNeedsApproval(t: Trace)
    requires Run(t) && t.More? && t.event.MakeKey?
    ensures var r := t.before.state.requests[t.event.id];
      r.source.DeviceCode? && ApprovedInTime(t.before, t.event.id, r.source.device, r.phase.grant)
  {
    AlwaysBacks(t.before);
    assert PollBacked(t.before, t.event.id, t.before.state.requests[t.event.id]);
  }

  // ---- the polling interval ----

  /** How often a device has been told to slow down, while its code was there. */
  function SlowDowns(t: Trace, device: Secret): nat {
    if t.First? then 0
    else SlowDowns(t.before, device) + if SlowsDown(t.before.state, t.event, device) then 1 else 0
  }

  predicate SlowsDown(s: State, e: Event, device: Secret) {
    && e.Judge? && Serves(s, e.id, DeviceCode(device)) && s.requests[e.id].phase.Polled?
    && s.requests[e.id].phase.row.expires >= s.requests[e.id].phase.moment
    && TooSoon(s.requests[e.id].phase.row, s.requests[e.id].phase.moment)
    && IsLive(s, DeviceCode(device)) && device in s.devices
  }

  /** Since this request polled, another poll of the device has been told to slow down. */
  predicate SlowedSince(t: Trace, id: nat, device: Secret) {
    t.More? && !(t.event.Poll? && t.event.id == id)
    && (SlowsDown(t.before.state, t.event, device) || SlowedSince(t.before, id, device))
  }

  /** Some poll was told to slow down although, since it read the row, another one had been. */
  predicate Overlapped(t: Trace, device: Secret) {
    t.More?
    && (Overlapped(t.before, device)
        || (SlowsDown(t.before.state, t.event, device) && SlowedSince(t.before, t.event.id, device)))
  }

  /** Each poll is judged before anything else happens. */
  predicate AtomicPolls(t: Trace) {
    t.More? ==>
      && AtomicPolls(t.before)
      && (t.event.Judge? ==> t.before.More? && t.before.event.Poll? && t.before.event.id == t.event.id)
  }

  function IntervalOf(s: State, device: Secret): nat {
    if device in s.devices then s.devices[device].interval else DEVICE_INTERVAL
  }

  lemma JudgeSetsInterval(s: State, e: Event, t: State, device: Secret)
    requires Step(s, e, t) && e.Judge?
    ensures IntervalOf(t, device) ==
            if SlowsDown(s, e, device) then s.requests[e.id].phase.row.interval + SLOW_DOWN_STEP else IntervalOf(s, device)
  {
    assert Serves(s, e.id, DeviceCode(device)) <==> s.requests[e.id].source.device == device;
  }

  lemma DecidingKeepsInterval(s: State, device: Secret, decision: Decision, other: Secret)
    ensures IntervalOf(Decided(s, device, decision), other) == IntervalOf(s, other)
  {
  }

  lemma OthersKeepInterval(s: State, e: Event, t: State, device: Secret)
    requires Step(s, e, t) && !e.Judge? && DevicesHaveFates(s)
    ensures IntervalOf(t, device) == IntervalOf(s, device)
  {
    if e.Deny? {
      DecidingKeepsInterval(s, s.people[e.person].device, Denied, device);
    } else if e.Approve? {
      var p := s.people[e.person];
      DecidingKeepsInterval(s, p.device, Approved(p.account, e.vault, GrantedScopes(p.row.value, e.write)), device);
    } else if !e.StartDevice? {
      OthersLeaveDevices(s, e, t);
    }
  }

  function Promised(t: Trace, device: Secret): nat {
    DEVICE_INTERVAL + SLOW_DOWN_STEP * SlowDowns(t, device)
  }

  /** A row read is the row as it is, or falls short of what has been promised by a step at least. */
  predicate RowInTime(t: Trace, id: nat, device: Secret) {
    id in t.state.requests && t.state.requests[id].phase.Polled? && t.state.requests[id].source == DeviceCode(device) ==>
      var interval := t.state.requests[id].phase.row.interval;
      if SlowedSince(t, id, device) then interval + SLOW_DOWN_STEP <= Promised(t, device)
      else interval == IntervalOf(t.state, device)
  }

  predicate RowsInTime(t: Trace, device: Secret) {
    forall id :: id in t.state.requests ==> RowInTime(t, id, device)
  }

  /** A step that slows nobody down leaves every row in time. */
  lemma QuietRowsInTime(t: Trace, device: Secret, id: nat)
    requires Run(t) && t.More? && !SlowsDown(t.before.state, t.event, device) && OneTaker(t.before.state)
    requires id in t.state.requests && (id in t.before.state.requests ==> RowInTime(t.before, id, device))
    requires IntervalOf(t.state, device) == IntervalOf(t.before.state, device)
    ensures RowInTime(t, id, device)
  {
    if MovesARequest(t.event) {
      RequestMoves(t.before.state, t.event, t.state);
    }
    if t.event.Poll? && t.event.id == id {
      PolledRowIsCurrent(t, id);
    }
  }

  /** A slow_down leaves every other row behind. */
  lemma SlowedRowsInTime(t: Trace, device: Secret, id: nat)
    requires Run(t) && t.More? && SlowsDown(t.before.state, t.event, device) && OneTaker(t.before.state)
    requires IntervalOf(t.before.state, device) <= Promised(t.before, device)
    requires id in t.state.requests && (id in t.before.state.requests ==> RowInTime(t.before, id, device))
    ensures RowInTime(t, id, device)
  {
    RequestMoves(t.before.state, t.event, t.state);
    JudgeSetsPhase(t.before.state, t.event, t.state);
  }

  lemma JudgeSetsPhase(s: State, e: Event, t: State)
    requires Step(s, e, t) && e.Judge?
    ensures e.id in t.requests && !t.requests[e.id].phase.Polled?
  {
  }

  /** However polls interleave, the interval is five seconds and five more for each slow_down if and only if no poll was
      told to slow down while another that had read the same row was; every such overlap loses steps for good. */
  lemma {:induction false} IntervalCountsExactly(t: Trace, device: Secret)
    requires Run(t)
    ensures IntervalOf(t.state, device) <= Promised(t, device) && RowsInTime(t, device)
    ensures IntervalOf(t.state, device) == Promised(t, device) <==> !Overlapped(t, device)
  {
    if t.More? {
      var s, e := t.before.state, t.event;
      IntervalCountsExactly(t.before, device);
      AlwaysBacks(t.before);
      AlwaysOneTaker(t.before);
      if e.Judge? {
        JudgeSetsInterval(s, e, t.state, device);
        assert RowInTime(t.before, e.id, device);
      } else {
        OthersKeepInterval(s, e, t.state, device);
      }
      forall id | id in t.state.requests ensures RowInTime(t, id, device) {
        if SlowsDown(s, e, device) {
          SlowedRowsInTime(t, device, id);
        } else {
          QuietRowsInTime(t, device, id);
        }
      }
    }
  }

  /** With atomic polls no two overlap, so the interval is five seconds and five more for each slow_down. */
  lemma {:induction false} IntervalCountsSlowDowns(t: Trace, device: Secret)
    requires Run(t) && AtomicPolls(t)
    ensures !Overlapped(t, device)
    ensures IntervalOf(t.state, device) == DEVICE_INTERVAL + SLOW_DOWN_STEP * SlowDowns(t, device)
  {
    if t.More? {
      IntervalCountsSlowDowns(t.before, device);
    }
    IntervalCountsExactly(t, device);
  }

  /** However polls interleave, the interval never runs ahead of the slow_down replies: the later of two overlapping
      polls may overwrite the step of the other, but adds none of its own accord. */
  lemma IntervalNeverAhead(t: Trace, device: Secret)
    requires Run(t)
    ensures IntervalOf(t.state, device) <= DEVICE_INTERVAL + SLOW_DOWN_STEP * SlowDowns(t, device)
  {
    IntervalCountsExactly(t, device);
  }

  lemma PolledRowIsCurrent(t: Trace, id: nat)
    requires Run(t) && t.More? && t.event.Poll? && t.event.id == id
    ensures id in t.state.requests
    ensures t.state.requests[id].phase.Polled? && t.state.requests[id].source.DeviceCode? ==>
              t.state.requests[id].source.device in t.state.devices
              && t.state.requests[id].phase.row == t.state.devices[t.state.requests[id].source.device]
              && IsLive(t.state, t.state.requests[id].source)
  {
  }

  lemma Onward(t: Trace, e: Event, s: State, device: Secret) returns (longer: Trace)
    requires Run(t) && Step(t.state, e, s)
    ensures Run(longer) && longer.state == s
    ensures SlowDowns(longer, device) == SlowDowns(t, device) + if SlowsDown(t.state, e, device) then 1 else 0
  {
    longer := More(t, e, s);
  }

  const CLI := Device("cli", {READ_SCOPE}, 900.0, Pending, DEVICE_INTERVAL, None)

  function Small(device: Device, requests: map<nat, Request>): State {
    State(map[DeviceCode("d") := Live], map[], map[], map["d" := device], requests, map[])
  }

  function OneRequest(phase: Phase): Request {
    Request(DeviceCode("d"), "cli", {}, phase)
  }

  const ROW := CLI.(lastPoll := Some(0.0))
  const LATE := OneRequest(Polled(ROW, 1.0))

  lemma Begun() returns (t: Trace)
    ensures Run(t) && SlowDowns(t, "d") == 0 && t.state == Small(CLI, map[0 := OneRequest(Reading)])
  {
    t := First(State(map[], map[], map[], map[], map[], map[]));
    t := Onward(t, StartDevice("d", "cli", {READ_SCOPE}, 900.0), Small(CLI, map[]), "d");
    t := Onward(t, Begin(0, DeviceCode("d"), "cli", {}), Small(CLI, map[0 := OneRequest(Reading)]), "d");
  }

  lemma FirstPoll() returns (t: Trace)
    ensures Run(t) && SlowDowns(t, "d") == 0 && t.state == Small(CLI, map[0 := OneRequest(Polled(CLI, 0.0))])
  {
    t := Begun();
    t := Onward(t, Poll(0, 0.0), Small(CLI, map[0 := OneRequest(Polled(CLI, 0.0))]), "d");
  }

  lemma PolledOnce() returns (t: Trace)
    ensures Run(t) && SlowDowns(t, "d") == 0 && t.state == Small(ROW, map[0 := OneRequest(Stopped)])
  {
    t := FirstPoll();
    t := Onward(t, Judge(0), Small(ROW, map[0 := OneRequest(Stopped)]), "d");
  }

  lemma TwoBegun() returns (t: Trace)
    ensures Run(t) && SlowDowns(t, "d") == 0
    ensures t.state == Small(ROW, map[0 := OneRequest(Stopped), 1 := OneRequest(Reading), 2 := OneRequest(Reading)])
  {
    t := PolledOnce();
    t := Onward(t, Begin(1, DeviceCode("d"), "cli", {}), Small(ROW, map[0 := OneRequest(Stopped), 1 := OneRequest(Reading)]), "d");
    t := Onward(t, Begin(2, DeviceCode("d"), "cli", {}),
                Small(ROW, map[0 := OneRequest(Stopped), 1 := OneRequest(Reading), 2 := OneRequest(Reading)]), "d");
  }

  lemma TwoPollsUnderWay() returns (t: Trace)
    ensures Run(t) && SlowDowns(t, "d") == 0
    ensures t.state == Small(ROW, map[0 := OneRequest(Stopped), 1 := LATE, 2 := LATE])
  {
    t := TwoBegun();
    t := Onward(t, Poll(1, 1.0), Small(ROW, map[0 := OneRequest(Stopped), 1 := LATE, 2 := OneRequest(Reading)]), "d");
    t := Onward(t, Poll(2, 1.0), Small(ROW, map[0 := OneRequest(Stopped), 1 := LATE, 2 := LATE]), "d");
  }

  const SLOWER := CLI.(lastPoll := Some(1.0), interval := 10)

  lemma OneJudged() returns (t: Trace)
    ensures Run(t) && SlowDowns(t, "d") == 1
    ensures t.state == Small(SLOWER, map[0 := OneRequest(Stopped), 1 := OneRequest(Stopped), 2 := LATE])
  {
    t := TwoPollsUnderWay();
    t := Onward(t, Judge(1), Small(SLOWER, map[0 := OneRequest(Stopped), 1 := OneRequest(Stopped), 2 := LATE]), "d");
  }

  /** Two overlapping polls: two slow_down replies, and an interval that has grown once. */
  lemma OverlappingPollsLoseAStep() returns (t: Trace)
    ensures Run(t) && SlowDowns(t, "d") == 2 && IntervalOf(t.state, "d") == DEVICE_INTERVAL + SLOW_DOWN_STEP
  {
    var stopped := OneRequest(Stopped);
    t := OneJudged();
    t := Onward(t, Judge(2), Small(SLOWER, map[0 := stopped, 1 := stopped, 2 := stopped]), "d");
  }
}
