/** The election of a group's creator: the `mls_group_info` clause of
    `apps/gateway/lib/gateway/binary_socket.ex` over the two cache commands, for
    any interleaving of any callers on any channels. */
module CreatorElection {
  import opened Base
  import opened Cache

  /** A request first claims (SET NX), later asks (GET) and answers. User ids are
      16 bytes. */
  datatype Event =
    | Claims(request: nat, k: CacheKey, user: Bytes, now: nat)
    | Asks(request: nat, now: nat)

  datatype Caller = Caller(k: CacheKey, user: Bytes)
  datatype Answer = Answer(caller: Caller, reply: Bytes)

  datatype World = World(creators: Cache.Claims, waiting: map<nat, Caller>, answers: seq<Answer>)

  const Initial := World(map[], map[], [])

  /** One byte 1 for the creator, and for whoever finds no creator; otherwise 0
      and the creator. */
  function Reply(user: Bytes, creator: Option<Bytes>): Bytes {
    if creator.None? || creator.value == user then [1] else [0] + creator.value
  }

  function Step(w: World, e: Event): Option<World> {
    match e
    case Claims(request, k, user, now) =>
      if request in w.waiting || |user| != 16 then None
      else Some(w.(creators := Claimed(w.creators, k, user, now), waiting := w.waiting[request := Caller(k, user)]))
    case Asks(request, now) =>
      if request !in w.waiting then None
      else
        var caller := w.waiting[request];
        var reply := Reply(caller.user, CreatorOf(w.creators, caller.k, now));
        Some(World(AfterGet(w.creators, caller.k, now), w.waiting - {request}, w.answers + [Answer(caller, reply)]))
  }

  function Run(events: seq<Event>): Option<World> {
    if events == [] then Some(Initial)
    else
      var n := |events| - 1;
      match Run(events[..n])
      case None => None
      case Some(w) => Step(w, events[n])
  }

  predicate InOrder(events: seq<Event>) {
    forall i, j | 0 <= i < j < |events| :: events[i].now <= events[j].now
  }

  predicate ClaimsOn(e: Event, k: CacheKey) {
    e.Claims? && e.k == k
  }

  // ---- Before and after the first claim ----

  ghost predicate Untouched(w: World, k: CacheKey) {
    && k !in w.creators
    && (forall r | r in w.waiting :: w.waiting[r].k != k)
    && (forall a | a in w.answers :: a.caller.k != k)
  }

  ghost predicate Unanimous(answers: seq<Answer>, k: CacheKey, winner: Bytes) {
    forall a | a in answers && a.caller.k == k ::
      a.reply == if a.caller.user == winner then [1] else [0] + winner
  }

  ghost predicate Decided(w: World, k: CacheKey, winner: Bytes, expiresAt: nat) {
    && k in w.creators && w.creators[k] == Claim(Hex(winner), expiresAt)
    && Unanimous(w.answers, k, winner)
  }

  lemma UntouchedStep(w: World, e: Event, k: CacheKey)
    requires Untouched(w, k) && !ClaimsOn(e, k) && Step(w, e).Some?
    ensures Untouched(Step(w, e).value, k)
  {
  }

  lemma FirstClaimDecides(w: World, e: Event, k: CacheKey)
    requires Untouched(w, k) && ClaimsOn(e, k) && Step(w, e).Some?
    ensures Decided(Step(w, e).value, k, e.user, e.now + CREATOR_TTL_MS)
  {
  }

  lemma DecidedStep(w: World, e: Event, k: CacheKey, winner: Bytes, expiresAt: nat)
    requires Decided(w, k, winner, expiresAt) && e.now < expiresAt && Step(w, e).Some?
    ensures Decided(Step(w, e).value, k, winner, expiresAt)
  {
    HexRoundTrip(winner);
  }

  lemma {:induction false} UntouchedRun(events: seq<Event>, k: CacheKey)
    requires Run(events).Some? && forall e | e in events :: !ClaimsOn(e, k)
    ensures Untouched(Run(events).value, k)
  {
    if events != [] {
      var n := |events| - 1;
      UntouchedRun(events[..n], k);
      UntouchedStep(Run(events[..n]).value, events[n], k);
    }
  }

  lemma {:induction false} DecidedRun(events: seq<Event>, k: CacheKey, first: nat)
    requires Run(events).Some? && InOrder(events)
    requires first < |events| && ClaimsOn(events[first], k)
    requires forall i | 0 <= i < first :: !ClaimsOn(events[i], k)
    requires events[|events| - 1].now < events[first].now + CREATOR_TTL_MS
    ensures Decided(Run(events).value, k, events[first].user, events[first].now + CREATOR_TTL_MS)
  {
    var n := |events| - 1;
    var w := Run(events[..n]).value;
    if first < n {
      DecidedRun(events[..n], k, first);
      DecidedStep(w, events[n], k, events[first].user, events[first].now + CREATOR_TTL_MS);
    } else {
      UntouchedRun(events[..n], k);
      FirstClaimDecides(w, events[n], k);
    }
  }

  /** While the first claim on a channel lives, every answer for the channel
      names the first claimant, and exactly that user is told 1. */
  lemma OneCreator(events: seq<Event>, k: CacheKey, first: nat)
    requires Run(events).Some? && InOrder(events)
    requires first < |events| && ClaimsOn(events[first], k)
    requires forall i | 0 <= i < first :: !ClaimsOn(events[i], k)
    requires events[|events| - 1].now < events[first].now + CREATOR_TTL_MS
    ensures
      var winner := events[first].user;
      && Unanimous(Run(events).value.answers, k, winner)
      && forall a | a in Run(events).value.answers && a.caller.k == k ::
           a.reply == [1] <==> a.caller.user == winner
  {
    DecidedRun(events, k, first);
    var winner := events[first].user;
    var answers := Run(events).value.answers;
    forall a | a in answers && a.caller.k == k ensures a.reply == [1] <==> a.caller.user == winner {
      assert ([0] + winner)[0] == 0 && [1][0] == 1;
    }
  }

  // ---- Whoever asks, whenever ----

  /** The last claim on the channel that took effect: it came first, or once the
      one before had expired. */
  function Winning(events: seq<Event>, k: CacheKey): (r: Option<nat>)
    ensures r.Some? ==> r.value < |events| && ClaimsOn(events[r.value], k)
  {
    if events == [] then None
    else
      var n := |events| - 1;
      var before := Winning(events[..n], k);
      if ClaimsOn(events[n], k) && (before.None? || events[n].now >= events[before.value].now + CREATOR_TTL_MS) then
        Some(n)
      else before
  }

  ghost predicate Reigns(w: World, k: CacheKey, claim: Option<Event>) {
    match claim
    case None => k !in w.creators && forall r | r in w.waiting :: w.waiting[r].k != k
    case Some(e) =>
      e.Claims? && k in w.creators && w.creators[k] == Claim(Hex(e.user), e.now + CREATOR_TTL_MS)
  }

  function ClaimAt(events: seq<Event>, i: Option<nat>): Option<Event>
    requires i.Some? ==> i.value < |events|
  {
    if i.Some? then Some(events[i.value]) else None
  }

  lemma ReignStep(w: World, k: CacheKey, claim: Option<Event>, e: Event)
    requires Reigns(w, k, claim) && Step(w, e).Some? && (claim.Some? ==> claim.value.Claims?)
    ensures
      var takes := ClaimsOn(e, k) && (claim.None? || e.now >= claim.value.now + CREATOR_TTL_MS);
      Reigns(Step(w, e).value, k, if takes then Some(e) else claim)
  {
    if claim.Some? {
      HexRoundTrip(claim.value.user);
    }
  }

  lemma {:induction false} RunReigns(events: seq<Event>, k: CacheKey)
    requires Run(events).Some?
    ensures Reigns(Run(events).value, k, ClaimAt(events, Winning(events, k)))
  {
    if events != [] {
      var n := |events| - 1;
      RunReigns(events[..n], k);
      ReignStep(Run(events[..n]).value, k, ClaimAt(events[..n], Winning(events[..n], k)), events[n]);
    }
  }

  /** After any run: a request that asks is told 1 exactly when its user made the
      winning claim or that claim has expired; otherwise it is told the winner. */
  lemma ToldOneIff(events: seq<Event>, request: nat, now: nat)
    requires Run(events).Some? && request in Run(events).value.waiting
    ensures
      var w := Run(events).value;
      var caller := w.waiting[request];
      var i := Winning(events, caller.k);
      var reply := Step(w, Asks(request, now)).value.answers[|w.answers|].reply;
      && i.Some?
      && (reply == [1] <==> caller.user == events[i.value].user || now >= events[i.value].now + CREATOR_TTL_MS)
      && (reply != [1] ==> reply == [0] + events[i.value].user)
  {
    var w := Run(events).value;
    var caller := w.waiting[request];
    RunReigns(events, caller.k);
    var winner := events[Winning(events, caller.k).value].user;
    HexRoundTrip(winner);
    assert ([0] + winner)[0] == 0 && [1][0] == 1;
  }

  lemma {:induction false} FirstWins(events: seq<Event>, k: CacheKey, first: nat)
    requires first < |events| && ClaimsOn(events[first], k)
    requires forall i | 0 <= i < first :: !ClaimsOn(events[i], k)
    requires forall i | 0 <= i < |events| && ClaimsOn(events[i], k) ::
               events[i].now < events[first].now + CREATOR_TTL_MS
    ensures Winning(events, k) == Some(first)
  {
    var n := |events| - 1;
    if first < n {
      FirstWins(events[..n], k, first);
    } else {
      NoneWins(events[..n], k);
    }
  }

  lemma {:induction false} NoneWins(events: seq<Event>, k: CacheKey)
    requires forall i | 0 <= i < |events| :: !ClaimsOn(events[i], k)
    ensures Winning(events, k) == None
  {
    if events != [] {
      NoneWins(events[..|events| - 1], k);
    }
  }

  /** While no claim came after the first one expired, a request is told 1 exactly
      when its user is the first claimant or it asks too late, however early it
      claimed. */
  lemma FirstClaimDecidesIff(events: seq<Event>, first: nat, request: nat, now: nat)
    requires Run(events).Some? && request in Run(events).value.waiting && first < |events|
    requires
      var k := Run(events).value.waiting[request].k;
      && ClaimsOn(events[first], k)
      && (forall i | 0 <= i < first :: !ClaimsOn(events[i], k))
      && (forall i | 0 <= i < |events| && ClaimsOn(events[i], k) :: events[i].now < events[first].now + CREATOR_TTL_MS)
    ensures
      var w := Run(events).value;
      var reply := Step(w, Asks(request, now)).value.answers[|w.answers|].reply;
      reply == [1]
      <==> w.waiting[request].user == events[first].user || now >= events[first].now + CREATOR_TTL_MS
  {
    FirstWins(events, Run(events).value.waiting[request].k, first);
    ToldOneIff(events, request, now);
  }

  // ---- After the claim has expired ----

  function TwoCallers(k: CacheKey, a: Bytes, b: Bytes, later: nat): seq<Event> {
    [Claims(0, k, a, 0), Asks(0, 0), Claims(1, k, b, later), Asks(1, later)]
  }

  lemma RunFour(e0: Event, e1: Event, e2: Event, e3: Event)
    requires Step(Initial, e0).Some?
    requires Step(Step(Initial, e0).value, e1).Some?
    requires Step(Step(Step(Initial, e0).value, e1).value, e2).Some?
    ensures Run([e0, e1, e2, e3]) == Step(Step(Step(Step(Initial, e0).value, e1).value, e2).value, e3)
  {
    assert [e0, e1, e2, e3][..3] == [e0, e1, e2];
    assert [e0, e1, e2][..2] == [e0, e1];
    assert [e0, e1][..1] == [e0];
    assert [e0][..0] == [];
    assert Run([]) == Some(Initial);
    assert Run([e0]) == Step(Initial, e0);
    assert Run([e0, e1]) == Step(Step(Initial, e0).value, e1);
    assert Run([e0, e1, e2]) == Step(Step(Step(Initial, e0).value, e1).value, e2);
  }

  lemma CallAlone(m: Cache.Claims, answers: seq<Answer>, request: nat, k: CacheKey, user: Bytes, now: nat)
    requires |user| == 16 && CreatorOf(Claimed(m, k, user, now), k, now).Some?
    ensures
      var m' := Claimed(m, k, user, now);
      var w := Step(World(m, map[], answers), Claims(request, k, user, now));
      var answer := Answer(Caller(k, user), Reply(user, CreatorOf(m', k, now)));
      && w.Some?
      && Step(w.value, Asks(request, now)) == Some(World(m', map[], answers + [answer]))
  {
    assert map[request := Caller(k, user)] - {request} == map[];
  }

  /** Two different users who call one after the other are both told 1 exactly
      when the second comes after the claim of the first has expired. */
  lemma BothAreCreatorsIff(k: CacheKey, a: Bytes, b: Bytes, later: nat)
    requires |a| == |b| == 16 && a != b
    ensures
      var w := Run(TwoCallers(k, a, b, later));
      && w.Some?
      && |w.value.answers| == 2
      && w.value.answers[0] == Answer(Caller(k, a), [1])
      && (w.value.answers[1] == Answer(Caller(k, b), [1]) <==> later >= CREATOR_TTL_MS)
  {
    HexRoundTrip(a);
    HexRoundTrip(b);
    var m: Cache.Claims := map[k := Claim(Hex(a), CREATOR_TTL_MS)];
    CallAlone(map[], [], 0, k, a, 0);
    CallAlone(m, [Answer(Caller(k, a), [1])], 1, k, b, later);
    RunFour(Claims(0, k, a, 0), Asks(0, 0), Claims(1, k, b, later), Asks(1, later));
    assert ([0] + a)[0] == 0;
  }
}
