/**
 * The counted ids over many boots, mints, crashes, goal bindings and disk
 * wipes (services/signer/src/keystore.ts, services/signer/src/main.ts). The
 * steps are those of `RoflKeyStore.Recover` and `RoflKeyStore.Mint`.
 */
module KeyEpochs {
  import opened Wrappers
  import opened KeyStore

  /**
   * `issued`: ids handed out, ever. `taken`: those, and the ones a crash or a
   * failure skipped. `bound`: payers of a goal. `disk` and `memory`: the
   * counter in the index file, and in the serving process. `lifetime`: ids
   * handed out since the disk was new, in order.
   */
  datatype Machine = Machine(issued: set<nat>, taken: set<nat>, bound: set<nat>, disk: Option<nat>, memory: Option<nat>,
      lifetime: seq<nat>)

  datatype Event =
    /** A process starts. Without a record it scans; a scan that throws leaves it not serving. */
    | Boot(gap: nat, scanned: nat, highest: int, throws: bool)
    /** `mint`, which may fail to persist or, after that, to derive. */
    | MintId(persisted: bool, derived: bool)
    | Crash
    | Wipe
    /** The vault binds a payer to a goal. */
    | Bind(n: nat)

  function New(): Machine {
    Machine({}, {}, {}, None, None, [])
  }

  ghost function Next(m: Machine, e: Event): Machine {
    match e
    case Boot(gap, scanned, highest, throws) =>
      if m.memory.Some? then m
      else if m.disk.Some? then m.(memory := m.disk)
      else if throws || !EndsAt(m.bound, gap, scanned) || !IsHighest(Below(m.bound, scanned), highest) then m
      else m.(memory := Some(highest + 1), disk := Some(highest + 1))
    case MintId(persisted, derived) =>
      (match m.memory
       case None => m
       case Some(n) =>
         var advanced := m.(memory := Some(n + 1), taken := m.taken + {n});
         if !persisted then advanced
         else
           var written := advanced.(disk := Some(n + 1));
           if derived then written.(issued := m.issued + {n}, lifetime := m.lifetime + [n]) else written)
    case Crash => m.(memory := None)
    case Wipe => m.(disk := None, memory := None, lifetime := [])
    case Bind(n) => if n in m.issued then m.(bound := m.bound + {n}) else m
  }

  ghost function From(m: Machine, events: seq<Event>): Machine {
    if events == [] then m else Next(From(m, events[..|events| - 1]), events[|events| - 1])
  }

  ghost function After(events: seq<Event>): Machine {
    From(New(), events)
  }

  ghost predicate Closed(taken: set<nat>) {
    forall i: nat, j: nat :: i < j && j in taken ==> i in taken
  }

  ghost predicate AllTaken(m: Machine, below: nat) {
    forall i: nat :: i < below ==> i in m.taken
  }

  ghost predicate Sound(m: Machine) {
    && m.bound <= m.issued <= m.taken
    && Closed(m.taken)
    && (m.memory.Some? ==> m.disk.Some? && m.disk.value <= m.memory.value && AllTaken(m, m.memory.value))
    && (m.disk.Some? ==> AllTaken(m, m.disk.value))
    && (m.disk.None? ==> m.lifetime == [])
    && (forall i :: 0 <= i < |m.lifetime| ==> m.lifetime[i] < m.disk.value && m.lifetime[i] in m.issued)
    && (forall i, j :: 0 <= i < j < |m.lifetime| ==> m.lifetime[i] < m.lifetime[j])
  }

  lemma NextIsSound(m: Machine, e: Event)
    requires Sound(m)
    ensures Sound(Next(m, e))
  {
    if e.MintId? && m.memory.Some? {
      assert AllTaken(Next(m, e), m.memory.value + 1);
    } else if e.Boot? && m.memory.None? && m.disk.None? && Next(m, e) != m {
      BootTakesNothingNew(m, e);
    }
  }

  /** The rebuilt counter never passes an id that was taken. */
  lemma BootTakesNothingNew(m: Machine, e: Event)
    requires Sound(m) && e.Boot? && IsHighest(Below(m.bound, e.scanned), e.highest)
    ensures e.highest + 1 >= 0 && AllTaken(m, e.highest + 1)
  {
    if e.highest >= 0 { assert e.highest in m.bound; }
  }

  lemma {:induction false} AlwaysSound(events: seq<Event>)
    ensures Sound(After(events))
  {
    hide Next, Sound;
    if events == [] {
      StartsSound();
    } else {
      AlwaysSound(events[..|events| - 1]);
      NextIsSound(After(events[..|events| - 1]), events[|events| - 1]);
    }
  }

  lemma StartsSound()
    ensures Sound(New())
  {
  }

  /** In every run, whatever lies below a bound id was handed out or skipped: no hole was jumped. */
  lemma HolesWereTaken(events: seq<Event>, b: nat, i: nat)
    requires b in After(events).bound && i < b
    ensures i in After(events).taken
  {
    hide After;
    AlwaysSound(events);
  }

  /** While one disk lives, no id is handed out twice, across any crashes and reboots. */
  lemma OncePerDisk(events: seq<Event>, i: nat, j: nat)
    requires i < j < |After(events).lifetime|
    ensures After(events).lifetime[i] != After(events).lifetime[j]
  {
    hide After;
    AlwaysSound(events);
  }

  /**
   * A boot on a new disk finds every bound payer, and resumes above all of
   * them, if and only if every hole is shorter than the gap.
   */
  lemma BootFindsAll(events: seq<Event>, gap: nat, scanned: nat, highest: int)
    requires After(events).disk.None? && After(events).memory.None?
    requires EndsAt(After(events).bound, gap, scanned) && IsHighest(Below(After(events).bound, scanned), highest)
    ensures var m := After(events); var t := Next(m, Boot(gap, scanned, highest, false));
            && t.memory.Some?
            && (HolesShort(m.bound, gap) <==> Below(m.bound, scanned) == m.bound)
            && (HolesShort(m.bound, gap) <==> forall b :: b in m.bound ==> b < t.memory.value)
  {
    hide After;
    var m := After(events);
    AlwaysSound(events);
    BootTakesNothingNew(m, Boot(gap, scanned, highest, false));
    ScanFindsAll(m.bound, gap, scanned);
    if forall b :: b in m.bound ==> b < highest + 1 {
      forall b | b in m.bound
        ensures b in Below(m.bound, scanned)
      {
        if highest >= 0 { assert highest in Below(m.bound, scanned); }
      }
      assert Below(m.bound, scanned) == m.bound;
    }
  }

  /** Ids already below the counter are not handed out again on this disk. */
  ghost predicate Past(m: Machine, ids: set<nat>) {
    m.disk.Some? ==> forall b :: b in ids ==> b < m.disk.value
  }

  /**
   * Payers found by a rebuild are never handed out again while that disk
   * lives: from a sound machine whose counter is past `ids`, no run without a
   * wipe hands out any of them.
   */
  lemma {:induction false} FoundStayUnique(m: Machine, more: seq<Event>, ids: set<nat>)
    requires Sound(m) && m.disk.Some? && Past(m, ids) && forall e :: e in more ==> !e.Wipe?
    ensures var t := From(m, more);
            && Sound(t) && t.disk.Some? && Past(t, ids) && m.lifetime <= t.lifetime
            && forall i :: |m.lifetime| <= i < |t.lifetime| ==> t.lifetime[i] !in ids
  {
    hide Sound, Next;
    if more == [] {
    } else {
      var n := |more| - 1;
      FoundStayUnique(m, more[..n], ids);
      NextIsSound(From(m, more[..n]), more[n]);
      OneMore(From(m, more[..n]), more[n], ids);
    }
  }

  lemma OneMore(m: Machine, e: Event, ids: set<nat>)
    requires Sound(m) && m.disk.Some? && Past(m, ids) && !e.Wipe?
    ensures var t := Next(m, e);
            && t.disk.Some? && Past(t, ids)
            && (t.lifetime == m.lifetime || (exists n :: t.lifetime == m.lifetime + [n] && n !in ids))
  {
    if e.MintId? && m.memory.Some? && e.persisted && e.derived {
      var n := m.memory.value;
      assert Next(m, e).lifetime == m.lifetime + [n] && n !in ids;
    }
  }

  lemma FromOne(m: Machine, events: seq<Event>, e: Event)
    ensures From(m, events + [e]) == Next(From(m, events), e)
  {
    assert (events + [e])[..|events|] == events;
  }

  lemma AfterOne(events: seq<Event>, e: Event)
    ensures After(events + [e]) == Next(After(events), e)
  {
    FromOne(New(), events, e);
  }

  lemma {:induction false} FromConcat(m: Machine, a: seq<Event>, b: seq<Event>)
    ensures From(m, a + b) == From(From(m, a), b)
  {
    hide Next;
    if b == [] {
      assert a + b == a;
    } else {
      assert (a + b)[..|a + b| - 1] == a + b[..|b| - 1];
      FromConcat(m, a, b[..|b| - 1]);
    }
  }

  // ------------------------------------- which ids one disk still hands out

  ghost predicate NoWipe(events: seq<Event>) {
    forall e :: e in events ==> !e.Wipe?
  }

  /** The next mint that succeeds hands out `n`. */
  ghost predicate HandsOut(m: Machine, n: nat) {
    Next(m, MintId(true, true)).lifetime == m.lifetime + [n]
  }

  /** Some continuation on this disk hands out `n`. */
  ghost predicate WillHandOut(m: Machine, n: nat) {
    exists more :: NoWipe(more) && HandsOut(From(m, more), n)
  }

  lemma HandsOutIsNext(m: Machine, n: nat)
    ensures HandsOut(m, n) <==> m.memory == Some(n)
  {
    if m.memory.Some? { assert (m.lifetime + [m.memory.value])[|m.lifetime|] == m.memory.value; }
    assert (m.lifetime + [n])[|m.lifetime|] == n;
  }

  /** `k` mints that succeed. */
  function Mints(k: nat): seq<Event> {
    seq(k, _ => MintId(true, true))
  }

  lemma {:induction false} MintsReach(m: Machine, c: nat, k: nat)
    requires m.memory == Some(c)
    ensures From(m, Mints(k)).memory == Some(c + k) && From(m, Mints(k)).bound == m.bound
  {
    if k == 0 {
      assert Mints(0) == [];
    } else {
      MintsReach(m, c, k - 1);
      assert Mints(k) == Mints(k - 1) + [MintId(true, true)];
      FromOne(m, Mints(k - 1), MintId(true, true));
    }
  }

  /** A restart reads the counter on disk; mints go on from there. */
  function Path(disk: nat, n: nat): seq<Event>
    requires disk <= n
  {
    [Crash, Boot(0, 0, 0, true)] + Mints(n - disk)
  }

  lemma RestartReadsDisk(m: Machine)
    requires m.disk.Some?
    ensures From(m, [Crash, Boot(0, 0, 0, true)]) == m.(memory := m.disk)
  {
    FromOne(m, [], Crash);
    assert [] + [Crash] == [Crash];
    FromOne(m, [Crash], Boot(0, 0, 0, true));
    assert [Crash] + [Boot(0, 0, 0, true)] == [Crash, Boot(0, 0, 0, true)];
  }

  lemma PathReaches(m: Machine, n: nat)
    requires m.disk.Some? && m.disk.value <= n
    ensures var t := From(m, Path(m.disk.value, n));
            NoWipe(Path(m.disk.value, n)) && HandsOut(t, n) && t.bound == m.bound
  {
    hide Next, HandsOut;
    var restart := [Crash, Boot(0, 0, 0, true)];
    RestartReadsDisk(m);
    MintsReach(From(m, restart), m.disk.value, n - m.disk.value);
    FromConcat(m, restart, Mints(n - m.disk.value));
    HandsOutIsNext(From(m, Path(m.disk.value, n)), n);
  }

  lemma {:induction false} CounterGrows(m: Machine, more: seq<Event>)
    requires Sound(m) && m.disk.Some? && NoWipe(more)
    ensures var t := From(m, more); Sound(t) && t.disk.Some? && m.disk.value <= t.disk.value
  {
    FoundStayUnique(m, more, {});
    if more == [] {
    } else {
      var n := |more| - 1;
      CounterGrows(m, more[..n]);
    }
  }

  /**
   * Exactly the ids from the counter on disk up are handed out by some
   * continuation on this disk.
   */
  lemma HandedOutIff(m: Machine, n: nat)
    requires Sound(m) && m.disk.Some?
    ensures WillHandOut(m, n) <==> n >= m.disk.value
  {
    if n >= m.disk.value {
      PathReaches(m, n);
    }
    if WillHandOut(m, n) {
      var more :| NoWipe(more) && HandsOut(From(m, more), n);
      CounterGrows(m, more);
      HandsOutIsNext(From(m, more), n);
    }
  }

  /** Some continuation on this disk hands out an id that is bound by then. */
  ghost predicate WillReissueBound(m: Machine) {
    exists more, n :: NoWipe(more) && HandsOut(From(m, more), n) && n in From(m, more).bound
  }

  ghost predicate AllBelow(ids: set<nat>, counter: Option<nat>) {
    counter.Some? && forall n :: n in ids ==> n < counter.value
  }

  lemma {:induction false} IssuedStayBelow(m: Machine, more: seq<Event>)
    requires Sound(m) && AllBelow(m.issued, m.disk) && NoWipe(more)
    ensures AllBelow(From(m, more).issued, From(m, more).disk)
  {
    if more == [] {
    } else {
      var n := |more| - 1;
      CounterGrows(m, more[..n]);
      IssuedStayBelow(m, more[..n]);
    }
  }

  /**
   * The counter never hands out an id that is already bound, whatever happens
   * on this disk, if and only if every id ever issued is below it. A rebuild
   * knows only the bound ones: an id issued on an earlier disk and not bound
   * yet is what breaks it.
   */
  lemma NeverReissuesBoundIff(m: Machine)
    requires Sound(m) && m.disk.Some?
    ensures !WillReissueBound(m) <==> AllBelow(m.issued, m.disk)
  {
    if AllBelow(m.issued, m.disk) {
      forall more, n | NoWipe(more) && HandsOut(From(m, more), n)
        ensures n !in From(m, more).bound
      {
        CounterGrows(m, more);
        IssuedStayBelow(m, more);
        HandsOutIsNext(From(m, more), n);
      }
    } else {
      var n :| n in m.issued && n >= m.disk.value;
      var bound := Next(m, Bind(n));
      PathReaches(bound, n);
      var more := [Bind(n)] + Path(m.disk.value, n);
      FromConcat(m, [Bind(n)], Path(m.disk.value, n));
      assert [Bind(n)][..0] == [];
      assert From(m, [Bind(n)]) == bound;
      assert NoWipe(more) && HandsOut(From(m, more), n) && n in From(m, more).bound;
    }
  }

  /**
   * The limit of it: an id minted before a wipe and bound after the rebuild is
   * handed out again, though it is bound by then.
   */
  lemma BoundAfterTheRebuild()
    ensures exists events :: 0 in After(events).bound && After(events + [MintId(true, true)]).lifetime == [0]
  {
    hide After;
    var boot, mint := Boot(50, 50, -1, false), MintId(true, true);
    var first := [boot];
    var minted := first + [mint];
    var wiped := minted + [Wipe];
    var again := wiped + [boot];
    var events := again + [Bind(0)];
    AfterOne([], boot);
    assert [] + [boot] == first;
    StartsEmpty();
    assert After(first) == Machine({}, {}, {}, Some(0), Some(0), []);
    AfterOne(first, mint);
    AfterOne(minted, Wipe);
    AfterOne(wiped, boot);
    AfterOne(again, Bind(0));
    AfterOne(events, mint);
    assert After(again) == Machine({0}, {0}, {}, Some(0), Some(0), []);
  }

  lemma StartsEmpty()
    ensures After([]) == New()
    ensures EndsAt({}, 50, 50) && IsHighest(Below({}, 50), -1)
  {
  }
}
