/** One-time codes by phone on expiring Redis keys (services/otp). */
module Otp {
  import opened Prelude
  import opened RedisStore
  import opened Windows

  /** The policy knobs; Redis only accepts positive expiries. */
  datatype Policy = Policy(ttl: int, cooldown: int, maxSends: int, window: int, maxGuesses: int)

  predicate IsUsable(p: Policy) {
    p.ttl > 0 && p.cooldown > 0 && p.window > 0
  }

  /** What happened: a code went out, a send was refused (for being over the cap of its window,
      or during the cooldown), a code was tried. */
  datatype Event =
    | Issued(phone: string, code: string, at: int)
    | OverCap(phone: string, at: int)
    | Cooling(phone: string, at: int)
    | Guess(phone: string, code: string, at: int)

  // ─── The abstract record of a phone ─────────────────────────────────────────

  datatype Code = Code(code: string, at: int)

  /** The latest code, the guesses made since it was issued, and whether one of them was accepted. */
  datatype Record = Record(issue: Option<Code>, guesses: nat, spent: bool)

  predicate Alive(p: Policy, r: Record, now: int) {
    r.issue.Some? && now < r.issue.value.at + p.ttl && !r.spent
  }

  predicate Accepts(p: Policy, r: Record, code: string, now: int) {
    Alive(p, r, now) && r.guesses < p.maxGuesses && r.issue.value.code == code
  }

  function Advance(p: Policy, r: Record, phone: string, e: Event): Record {
    if e.phone != phone then r
    else match e
      case Issued(_, code, at) => Record(Some(Code(code, at)), 0, false)
      case OverCap(_, _) => r
      case Cooling(_, _) => r
      case Guess(_, code, at) => r.(guesses := r.guesses + 1, spent := r.spent || Accepts(p, r, code, at))
  }

  function RecordOf(p: Policy, log: seq<Event>, phone: string): Record {
    if log == [] then Record(None, 0, false)
    else Advance(p, RecordOf(p, log[..|log| - 1], phone), phone, log[|log| - 1])
  }

  lemma RecordAfter(p: Policy, log: seq<Event>, e: Event, phone: string)
    ensures RecordOf(p, log + [e], phone) == Advance(p, RecordOf(p, log, phone), phone, e)
  {
  }

  /** A send attempt that got past the cooldown, and so raised the window counter. */
  predicate IsCounted(e: Event, phone: string) {
    e.phone == phone && (e.Issued? || e.OverCap?)
  }

  /** The sends of a phone, as calls in aligned windows. */
  function SendsOf(p: Policy, log: seq<Event>, phone: string): Calls {
    Calls(|log|,
          (i: nat) => i < |log| && IsCounted(log[i], phone),
          (i: nat) => if i < |log| then log[i].at else 0,
          p.maxSends, p.window)
  }

  function SendCount(p: Policy, log: seq<Event>, phone: string, window: int): int
    requires p.window > 0
  {
    CountBefore(SendsOf(p, log, phone), |log|, window)
  }

  lemma SendCountAfter(p: Policy, log: seq<Event>, e: Event, phone: string, window: int)
    requires p.window > 0
    ensures SendCount(p, log + [e], phone, window)
            == SendCount(p, log, phone, window) + if IsCounted(e, phone) && e.at / p.window == window then 1 else 0
  {
    var c, c' := SendsOf(p, log, phone), SendsOf(p, log + [e], phone);
    forall i: nat | i < |log| ensures CountsIn(c, window)(i) == CountsIn(c', window)(i) {
      assert (log + [e])[i] == log[i];
      assert c.mine(i) == c'.mine(i) && c.at(i) == c'.at(i);
    }
    SumSame(|log|, CountsIn(c, window), CountsIn(c', window));
    assert c'.mine(|log|) == IsCounted(e, phone) && c'.at(|log|) == e.at;
  }

  lemma {:induction false} SendCountNotNegative(p: Policy, log: seq<Event>, phone: string, window: int, n: nat)
    requires p.window > 0
    ensures CountBefore(SendsOf(p, log, phone), n, window) >= 0
  {
    if n > 0 { SendCountNotNegative(p, log, phone, window, n - 1); }
  }

  predicate IsCooling(p: Policy, r: Record, now: int) {
    r.issue.Some? && now < r.issue.value.at + p.cooldown
  }

  /** The answer to a send is determined by the record and the window. */
  predicate IsLawful(p: Policy, before: seq<Event>, e: Event)
    requires p.window > 0
  {
    match e
    case Issued(phone, _, at) => !IsCooling(p, RecordOf(p, before, phone), at)
        && SendCount(p, before, phone, at / p.window) < p.maxSends
    case OverCap(phone, at) => !IsCooling(p, RecordOf(p, before, phone), at)
        && SendCount(p, before, phone, at / p.window) >= p.maxSends
    case Cooling(phone, at) => IsCooling(p, RecordOf(p, before, phone), at)
    case Guess(_, _, _) => true
  }

  /** Times never decrease and every send was answered as the policy says. */
  predicate Lawful(p: Policy, log: seq<Event>)
    requires p.window > 0
  {
    log == [] ||
    (var n := |log| - 1;
     && Lawful(p, log[..n])
     && IsLawful(p, log[..n], log[n])
     && (n > 0 ==> log[n - 1].at <= log[n].at))
  }

  lemma LawfulAfter(p: Policy, log: seq<Event>, e: Event)
    requires p.window > 0 && Lawful(p, log) && IsLawful(p, log, e)
    requires log != [] ==> log[|log| - 1].at <= e.at
    ensures Lawful(p, log + [e])
  {
  }

  // ─── Redis holds the records ────────────────────────────────────────────────

  predicate Holds(entries: map<Name, Entry>, now: int, name: Name, value: Value, expiresAt: int) {
    && name in entries && entries[name] == Entry(value, Some(expiresAt)) && now < expiresAt
  }

  predicate Absent(entries: map<Name, Entry>, now: int, name: Name) {
    name in entries ==> !IsLive(entries[name], now)
  }

  /** The code key is there exactly while its code can still be accepted or burned; the guess counter
      expires at the very moment the code does, never before. */
  predicate CodeIsHeld(p: Policy, entries: map<Name, Entry>, now: int, phone: string, r: Record) {
    if Alive(p, r, now) && (r.guesses == 0 || r.guesses <= p.maxGuesses) then
      var expiry := r.issue.value.at + p.ttl;
      && Holds(entries, now, CodeKey(phone), Digest(phone, r.issue.value.code), expiry)
      && (if r.guesses == 0 then Absent(entries, now, AttemptsKey(phone))
          else Holds(entries, now, AttemptsKey(phone), Counter(r.guesses), expiry))
    else Absent(entries, now, CodeKey(phone))
  }

  predicate CooldownIsHeld(p: Policy, entries: map<Name, Entry>, now: int, phone: string, r: Record) {
    if IsCooling(p, r, now)
    then Holds(entries, now, CooldownKey(phone), Flag, r.issue.value.at + p.cooldown)
    else Absent(entries, now, CooldownKey(phone))
  }

  ghost predicate WindowIsHeld(p: Policy, entries: map<Name, Entry>, now: int, log: seq<Event>, phone: string,
                               window: int)
    requires p.window > 0
  {
    var name := WindowKey(phone, window);
    var count := SendCount(p, log, phone, window);
    window * p.window + p.window > now ==>
      if count == 0 then Absent(entries, now, name)
      else
        && name in entries && entries[name].value == Counter(count)
        && entries[name].expiresAt.Some? && entries[name].expiresAt.value >= window * p.window + p.window
  }

  predicate RecordIsHeld(p: Policy, entries: map<Name, Entry>, now: int, log: seq<Event>, phone: string) {
    var r := RecordOf(p, log, phone);
    && CodeIsHeld(p, entries, now, phone, r)
    && CooldownIsHeld(p, entries, now, phone, r)
    && (r.issue.Some? ==> r.issue.value.at <= now)
  }

  datatype SendResult = CoolingDown(seconds: int) | TooMany | Sent | GatewayDown

  class OtpService {
    const redis: Redis
    const policy: Policy
    ghost var log: seq<Event>

    ghost predicate Valid()
      reads this, redis
    {
      IsUsable(policy) && AllHeld(policy, redis.entries, redis.now, log)
    }

    constructor (redis: Redis, policy: Policy)
      requires IsUsable(policy)
      requires forall name: Name :: name in redis.entries ==> name.RateKey?
      ensures Valid() && this.redis == redis && this.policy == policy && log == []
    {
      this.redis := redis;
      this.policy := policy;
      log := [];
    }

    /** Time passes: keys expire exactly when the records say so. */
    method Wait(seconds: nat)
      requires Valid()
      modifies redis`now
      ensures Valid() && redis.now == old(redis.now) + seconds
    {
      ghost var before := redis.now;
      redis.Pass(seconds);
      forall phone: string ensures RecordIsHeld(policy, redis.entries, redis.now, log, phone) {
        assert RecordIsHeld(policy, redis.entries, before, log, phone);
      }
      forall phone: string, window: int ensures WindowIsHeld(policy, redis.entries, redis.now, log, phone, window) {
        assert WindowIsHeld(policy, redis.entries, before, log, phone, window);
      }
    }

    /** verify: accepts exactly when the abstract record of the phone does. */
    method Verify(phone: string, code: string) returns (verified: bool)
      requires Valid()
      modifies this`log, redis`entries
      ensures Valid()
      ensures log == old(log) + [Guess(phone, code, redis.now)]
      ensures verified <==> Accepts(policy, RecordOf(policy, old(log), phone), code, redis.now)
    {
      ghost var before := redis.entries;
      ghost var r := RecordOf(policy, log, phone);
      assert RecordIsHeld(policy, before, redis.now, log, phone);
      verified := TryCode(phone, code, r);
      KeepGuess(policy, before, redis.entries, redis.now, log, phone, code);
      log := log + [Guess(phone, code, redis.now)];
    }

    /** The commands of verify. */
    method TryCode(phone: string, code: string, ghost r: Record) returns (verified: bool)
      requires IsUsable(policy) && CodeIsHeld(policy, redis.entries, redis.now, phone, r)
      modifies redis`entries
      ensures CodeIsHeld(policy, redis.entries, redis.now, phone,
              Advance(policy, r, phone, Guess(phone, code, redis.now)))
      ensures verified <==> Accepts(policy, r, code, redis.now)
      ensures forall name: Name :: name != CodeKey(phone) && name != AttemptsKey(phone) ==>
                (name in redis.entries <==> name in old(redis.entries))
                && (name in redis.entries ==> redis.entries[name] == old(redis.entries)[name])
    {
      var stored := redis.Get(CodeKey(phone));
      if stored.None? {
        return false;
      }
      var attempts := redis.Incr(AttemptsKey(phone));
      if attempts == 1 {
        var ttl := redis.Ttl(CodeKey(phone));
        redis.Expire(AttemptsKey(phone), if ttl > 1 then ttl else 1);
      }
      if attempts > policy.maxGuesses {
        redis.Delete(CodeKey(phone));
        return false;
      }
      if stored.value != Digest(phone, code) {
        return false;
      }
      redis.Delete(CodeKey(phone));
      redis.Delete(AttemptsKey(phone));
      return true;
    }

    /** Counts the send in its window. */
    method CountSend(phone: string) returns (sends: int)
      requires IsUsable(policy) && WindowIsHeld(policy, redis.entries, redis.now, log, phone, redis.now / policy.window)
      modifies redis`entries
      ensures sends == SendCount(policy, log, phone, redis.now / policy.window) + 1
      ensures CountedUp(policy, redis.entries, log, phone, redis.now)
      ensures SameBut(old(redis.entries), redis.entries, {WindowKey(phone, redis.now / policy.window)})
    {
      var window := redis.now / policy.window;
      SendCountNotNegative(policy, log, phone, window, |log|);
      InWindow(SendsOf(policy, log, phone), window, redis.now);
      sends := redis.Incr(WindowKey(phone, window));
      if sends == 1 {
        redis.Expire(WindowKey(phone, window), policy.window);
      }
    }

    /** A fresh code resets the guess counter and starts a cooldown. */
    method StoreCode(phone: string, code: string)
      requires IsUsable(policy)
      modifies redis`entries
      ensures Holds(redis.entries, redis.now, CodeKey(phone), Digest(phone, code), redis.now + policy.ttl)
      ensures AttemptsKey(phone) !in redis.entries
      ensures Holds(redis.entries, redis.now, CooldownKey(phone), Flag, redis.now + policy.cooldown)
      ensures SameBut(old(redis.entries), redis.entries, {CodeKey(phone), AttemptsKey(phone), CooldownKey(phone)})
    {
      redis.SetEx(CodeKey(phone), Digest(phone, code), policy.ttl);
      redis.Delete(AttemptsKey(phone));
      redis.SetEx(CooldownKey(phone), Flag, policy.cooldown);
    }

    /** send, with the generated code and what the gateway answered as inputs. A code that the gateway
        failed to deliver stays issued. */
    method Send(phone: string, code: string, delivered: bool) returns (r: SendResult)
      requires Valid()
      modifies this`log, redis`entries
      ensures Valid()
      ensures var record, w := RecordOf(policy, old(log), phone), redis.now / policy.window;
              if IsCooling(policy, record, redis.now) then
                r == CoolingDown(record.issue.value.at + policy.cooldown - redis.now) && r.seconds >= 1
                && log == old(log) + [Cooling(phone, redis.now)]
              else if SendCount(policy, old(log), phone, w) >= policy.maxSends then
                r == TooMany && log == old(log) + [OverCap(phone, redis.now)]
              else
                r == (if delivered then Sent else GatewayDown) && log == old(log) + [Issued(phone, code, redis.now)]
    {
      ghost var before := redis.entries;
      ghost var record := RecordOf(policy, log, phone);
      assert RecordIsHeld(policy, before, redis.now, log, phone);
      var cooling := redis.Exists(CooldownKey(phone));
      if cooling {
        var ttl := redis.Ttl(CooldownKey(phone));
        KeepCooling(policy, redis.entries, redis.now, log, phone);
        log := log + [Cooling(phone, redis.now)];
        return CoolingDown(if ttl > 1 then ttl else 1);
      }
      var sends := CountSend(phone);
      ghost var counted := redis.entries;
      if sends > policy.maxSends {
        KeepOverCap(policy, before, counted, redis.now, log, phone);
        log := log + [OverCap(phone, redis.now)];
        return TooMany;
      }
      StoreCode(phone, code);
      assert CountedUp(policy, redis.entries, log, phone, redis.now);
      KeepIssued(policy, before, redis.entries, redis.now, log, phone, code);
      log := log + [Issued(phone, code, redis.now)];
      return if delivered then Sent else GatewayDown;
    }
  }

  // ─── Frames: the keys of one phone ──────────────────────────────────────────

  predicate IsOtpKeyOf(name: Name, phone: string) {
    match name
    case RateKey(_, _, _) => false
    case CodeKey(q) => q == phone
    case AttemptsKey(q) => q == phone
    case CooldownKey(q) => q == phone
    case WindowKey(q, _) => q == phone
  }

  ghost predicate SameBut(entries: map<Name, Entry>, entries': map<Name, Entry>, names: set<Name>) {
    forall name: Name :: name !in names ==>
      (name in entries' <==> name in entries) && (name in entries' ==> entries'[name] == entries[name])
  }

  /** The records of the other phones and of the other windows do not notice an event of this phone. */
  lemma OthersKept(p: Policy, entries: map<Name, Entry>, entries': map<Name, Entry>, now: int,
                   log: seq<Event>, e: Event, names: set<Name>, phone: string)
    requires p.window > 0 && phone != e.phone
    requires RecordIsHeld(p, entries, now, log, phone)
    requires SameBut(entries, entries', names) && forall name: Name | name in names :: IsOtpKeyOf(name, e.phone)
    ensures RecordIsHeld(p, entries', now, log + [e], phone)
  {
  }

  lemma WindowsKept(p: Policy, entries: map<Name, Entry>, entries': map<Name, Entry>, now: int,
                    log: seq<Event>, e: Event, names: set<Name>, phone: string, window: int)
    requires p.window > 0 && WindowIsHeld(p, entries, now, log, phone, window)
    requires SameBut(entries, entries', names) && WindowKey(phone, window) !in names
    requires !(IsCounted(e, phone) && e.at / p.window == window)
    ensures WindowIsHeld(p, entries', now, log + [e], phone, window)
  {
    SendCountAfter(p, log, e, phone, window);
  }

  ghost predicate AllHeld(p: Policy, entries: map<Name, Entry>, now: int, log: seq<Event>)
    requires p.window > 0
  {
    && (forall phone: string :: RecordIsHeld(p, entries, now, log, phone))
    && (forall phone: string, window: int :: WindowIsHeld(p, entries, now, log, phone, window))
    && Lawful(p, log)
    && (log != [] ==> log[|log| - 1].at <= now)
  }

  /** An event that counts for no window leaves every window as it is held. */
  lemma WindowsIgnore(p: Policy, entries: map<Name, Entry>, entries': map<Name, Entry>, now: int, log: seq<Event>,
                      e: Event, names: set<Name>)
    requires p.window > 0 && !IsCounted(e, e.phone) && SameBut(entries, entries', names)
    requires forall name: Name | name in names :: !name.WindowKey?
    requires forall q: string, w: int :: WindowIsHeld(p, entries, now, log, q, w)
    ensures forall q: string, w: int :: WindowIsHeld(p, entries', now, log + [e], q, w)
  {
    forall q: string, w: int ensures WindowIsHeld(p, entries', now, log + [e], q, w) {
      assert WindowIsHeld(p, entries, now, log, q, w);
      WindowsKept(p, entries, entries', now, log, e, names, q, w);
    }
  }

  lemma GuessedRecord(p: Policy, entries: map<Name, Entry>, entries': map<Name, Entry>, now: int,
                      log: seq<Event>, phone: string, code: string, q: string)
    requires p.window > 0 && RecordIsHeld(p, entries, now, log, q)
    requires SameBut(entries, entries', {CodeKey(phone), AttemptsKey(phone)})
    requires CodeIsHeld(p, entries', now, phone, Advance(p, RecordOf(p, log, phone), phone, Guess(phone, code, now)))
    ensures RecordIsHeld(p, entries', now, log + [Guess(phone, code, now)], q)
  {
    var e := Guess(phone, code, now);
    if q != phone {
      OthersKept(p, entries, entries', now, log, e, {CodeKey(phone), AttemptsKey(phone)}, q);
    } else {
      RecordAfter(p, log, e, phone);
      GuessKeepsCooldown(p, entries, entries', now, phone, code, RecordOf(p, log, phone));
    }
  }

  /** A guess touches neither the cooldown key nor the issue it belongs to. */
  lemma GuessKeepsCooldown(p: Policy, entries: map<Name, Entry>, entries': map<Name, Entry>, now: int,
                           phone: string, code: string, r: Record)
    requires CooldownIsHeld(p, entries, now, phone, r)
    requires SameBut(entries, entries', {CodeKey(phone), AttemptsKey(phone)})
    ensures CooldownIsHeld(p, entries', now, phone, Advance(p, r, phone, Guess(phone, code, now)))
    ensures Advance(p, r, phone, Guess(phone, code, now)).issue == r.issue
  {
  }

  lemma GuessedRecords(p: Policy, entries: map<Name, Entry>, entries': map<Name, Entry>, now: int,
                       log: seq<Event>, phone: string, code: string)
    requires p.window > 0 && forall q: string :: RecordIsHeld(p, entries, now, log, q)
    requires SameBut(entries, entries', {CodeKey(phone), AttemptsKey(phone)})
    requires CodeIsHeld(p, entries', now, phone, Advance(p, RecordOf(p, log, phone), phone, Guess(phone, code, now)))
    ensures forall q: string :: RecordIsHeld(p, entries', now, log + [Guess(phone, code, now)], q)
  {
    forall q: string ensures RecordIsHeld(p, entries', now, log + [Guess(phone, code, now)], q) {
      GuessedRecord(p, entries, entries', now, log, phone, code, q);
    }
  }

  lemma KeepGuess(p: Policy, entries: map<Name, Entry>, entries': map<Name, Entry>, now: int,
                  log: seq<Event>, phone: string, code: string)
    requires p.window > 0 && AllHeld(p, entries, now, log)
    requires SameBut(entries, entries', {CodeKey(phone), AttemptsKey(phone)})
    requires CodeIsHeld(p, entries', now, phone, Advance(p, RecordOf(p, log, phone), phone, Guess(phone, code, now)))
    ensures AllHeld(p, entries', now, log + [Guess(phone, code, now)])
  {
    GuessedRecords(p, entries, entries', now, log, phone, code);
    WindowsIgnore(p, entries, entries', now, log, Guess(phone, code, now), {CodeKey(phone), AttemptsKey(phone)});
    LawfulAfter(p, log, Guess(phone, code, now));
  }

  lemma KeepCooling(p: Policy, entries: map<Name, Entry>, now: int, log: seq<Event>, phone: string)
    requires p.window > 0 && AllHeld(p, entries, now, log) && IsCooling(p, RecordOf(p, log, phone), now)
    ensures AllHeld(p, entries, now, log + [Cooling(phone, now)])
  {
    var e := Cooling(phone, now);
    forall q: string ensures RecordIsHeld(p, entries, now, log + [e], q) {
      assert RecordIsHeld(p, entries, now, log, q);
      RecordAfter(p, log, e, q);
    }
    WindowsIgnore(p, entries, entries, now, log, e, {});
    LawfulAfter(p, log, e);
  }

  predicate CountedUp(p: Policy, entries: map<Name, Entry>, log: seq<Event>, phone: string, now: int)
    requires p.window > 0
  {
    var w := now / p.window;
    var name := WindowKey(phone, w);
    && name in entries && entries[name].value == Counter(SendCount(p, log, phone, w) + 1)
    && entries[name].expiresAt.Some? && entries[name].expiresAt.value >= w * p.window + p.window
  }

  lemma OwnWindowKept(p: Policy, entries': map<Name, Entry>, now: int, log: seq<Event>, e: Event)
    requires p.window > 0 && IsCounted(e, e.phone) && e.at == now
    requires CountedUp(p, entries', log, e.phone, now)
    ensures WindowIsHeld(p, entries', now, log + [e], e.phone, now / p.window)
  {
    SendCountAfter(p, log, e, e.phone, now / p.window);
    SendCountNotNegative(p, log, e.phone, now / p.window, |log|);
  }

  lemma KeepOverCap(p: Policy, entries: map<Name, Entry>, entries': map<Name, Entry>, now: int, log: seq<Event>,
                    phone: string)
    requires p.window > 0 && AllHeld(p, entries, now, log)
    requires SameBut(entries, entries', {WindowKey(phone, now / p.window)}) && CountedUp(p, entries', log, phone, now)
    requires IsLawful(p, log, OverCap(phone, now))
    ensures AllHeld(p, entries', now, log + [OverCap(phone, now)])
  {
    var e, names := OverCap(phone, now), {WindowKey(phone, now / p.window)};
    forall q: string ensures RecordIsHeld(p, entries', now, log + [e], q) {
      assert RecordIsHeld(p, entries, now, log, q);
      RecordAfter(p, log, e, q);
    }
    forall q: string, w: int ensures WindowIsHeld(p, entries', now, log + [e], q, w) {
      assert WindowIsHeld(p, entries, now, log, q, w);
      if q == phone && w == now / p.window {
        OwnWindowKept(p, entries', now, log, e);
      } else {
        WindowsKept(p, entries, entries', now, log, e, names, q, w);
      }
    }
    LawfulAfter(p, log, e);
  }

  lemma KeepIssued(p: Policy, entries: map<Name, Entry>, entries': map<Name, Entry>, now: int,
                   log: seq<Event>, phone: string, code: string)
    requires IsUsable(p) && AllHeld(p, entries, now, log)
    requires SameBut(entries, entries',
             {WindowKey(phone, now / p.window), CodeKey(phone), AttemptsKey(phone), CooldownKey(phone)})
    requires CountedUp(p, entries', log, phone, now)
    requires Holds(entries', now, CodeKey(phone), Digest(phone, code), now + p.ttl) && AttemptsKey(phone) !in entries'
    requires Holds(entries', now, CooldownKey(phone), Flag, now + p.cooldown)
    requires IsLawful(p, log, Issued(phone, code, now))
    ensures AllHeld(p, entries', now, log + [Issued(phone, code, now)])
  {
    var e := Issued(phone, code, now);
    var names := {WindowKey(phone, now / p.window), CodeKey(phone), AttemptsKey(phone), CooldownKey(phone)};
    forall q: string ensures RecordIsHeld(p, entries', now, log + [e], q) {
      assert RecordIsHeld(p, entries, now, log, q);
      RecordAfter(p, log, e, q);
      if q != phone { OthersKept(p, entries, entries', now, log, e, names, q); }
    }
    forall q: string, w: int ensures WindowIsHeld(p, entries', now, log + [e], q, w) {
      assert WindowIsHeld(p, entries, now, log, q, w);
      if q == phone && w == now / p.window {
        OwnWindowKept(p, entries', now, log, e);
      } else {
        WindowsKept(p, entries, entries', now, log, e, names, q, w);
      }
    }
    LawfulAfter(p, log, e);
  }

  // ─── What the records mean ──────────────────────────────────────────────────

  predicate IsIssue(e: Event, phone: string) { e.Issued? && e.phone == phone }

  predicate IsGuess(e: Event, phone: string) { e.Guess? && e.phone == phone }

  /** Event s is the last code issued to the phone. */
  predicate IsLastIssue(log: seq<Event>, phone: string, s: nat) {
    s < |log| && IsIssue(log[s], phone) && forall i: nat | s < i < |log| :: !IsIssue(log[i], phone)
  }

  function GuessAfter(log: seq<Event>, phone: string, s: nat): nat -> int {
    (i: nat) => if s < i < |log| && IsGuess(log[i], phone) then 1 else 0
  }

  function GuessesAfter(log: seq<Event>, phone: string, s: nat): int {
    SumTo(|log|, GuessAfter(log, phone, s))
  }

  /** Somebody has tried the given code since event s. */
  predicate TriedAfter(log: seq<Event>, phone: string, s: nat, code: string) {
    exists i: nat :: s < i < |log| && IsGuess(log[i], phone) && log[i].code == code
  }

  predicate InOrder(log: seq<Event>) {
    forall i: nat, j: nat | i < j < |log| :: log[i].at <= log[j].at
  }

  lemma {:induction false} LawfulIsInOrder(p: Policy, log: seq<Event>)
    requires p.window > 0 && Lawful(p, log)
    ensures InOrder(log)
  {
    if log != [] {
      var n := |log| - 1;
      LawfulIsInOrder(p, log[..n]);
      forall i: nat, j: nat | i < j < |log| ensures log[i].at <= log[j].at {
        if j < n {
          assert log[..n][i].at <= log[..n][j].at;
        } else if i < n - 1 {
          assert log[..n][i].at <= log[..n][n - 1].at;
        }
      }
    }
  }

  lemma GuessesDropLast(log: seq<Event>, phone: string, s: nat)
    requires log != []
    ensures GuessesAfter(log, phone, s)
            == GuessesAfter(log[..|log| - 1], phone, s) + if s < |log| - 1 && IsGuess(log[|log| - 1], phone)
                then 1 else 0
  {
    var n := |log| - 1;
    forall i: nat | i < n ensures GuessAfter(log, phone, s)(i) == GuessAfter(log[..n], phone, s)(i) {
      assert log[..n][i] == log[i];
    }
    SumSame(n, GuessAfter(log, phone, s), GuessAfter(log[..n], phone, s));
  }

  lemma TriedDropLast(log: seq<Event>, phone: string, s: nat, code: string)
    requires log != []
    ensures TriedAfter(log, phone, s, code)
            <==> TriedAfter(log[..|log| - 1], phone, s, code)
                 || (s < |log| - 1 && IsGuess(log[|log| - 1], phone) && log[|log| - 1].code == code)
  {
  }

  /** The record of a phone, read off the history: the last code issued, the guesses since, and, as long
      as these were few enough and in time, whether the right code was among them. */
  lemma {:induction false} RecordMeaning(p: Policy, log: seq<Event>, phone: string, s: nat)
    requires IsLastIssue(log, phone, s) && InOrder(log)
    ensures var r := RecordOf(p, log, phone);
            && r.issue == Some(Code(log[s].code, log[s].at))
            && r.guesses == GuessesAfter(log, phone, s)
            && (r.spent ==> TriedAfter(log, phone, s, log[s].code))
            && (TriedAfter(log, phone, s, log[s].code) ==>
                  r.guesses <= p.maxGuesses && log[|log| - 1].at < log[s].at + p.ttl ==> r.spent)
    decreases |log|
  {
    var n := |log| - 1;
    var init, last := log[..n], log[n];
    GuessesDropLast(log, phone, s);
    TriedDropLast(log, phone, s, log[s].code);
    if n == s {
      SumConstant(n, GuessAfter(init, phone, s), 0);
    } else {
      assert IsLastIssue(init, phone, s);
      RecordMeaning(p, init, phone, s);
      assert init[|init| - 1].at <= last.at;
    }
  }

  lemma {:induction false} NoIssueNoRecord(p: Policy, log: seq<Event>, phone: string)
    requires forall i: nat | i < |log| :: !IsIssue(log[i], phone)
    ensures RecordOf(p, log, phone).issue.None?
    decreases |log|
  {
    if log != [] { NoIssueNoRecord(p, log[..|log| - 1], phone); }
  }

  /** What a verification that answers true has behind it, in terms of the history alone: the code is
      the last one issued to this phone, it has not expired, fewer than the maximum of guesses were made
      since it was issued, and it has not been tried before. */
  ghost predicate IsGenuine(p: Policy, log: seq<Event>, phone: string, code: string, now: int) {
    exists s: nat ::
      && IsLastIssue(log, phone, s)
      && log[s].code == code
      && now < log[s].at + p.ttl
      && GuessesAfter(log, phone, s) < p.maxGuesses
      && !TriedAfter(log, phone, s, code)
  }

  /** OtpService.Verify answers true exactly for a genuine code. */
  lemma AcceptedExactlyWhenGenuine(p: Policy, log: seq<Event>, phone: string, code: string, now: int)
    requires p.window > 0 && Lawful(p, log) && (log != [] ==> log[|log| - 1].at <= now)
    ensures Accepts(p, RecordOf(p, log, phone), code, now) <==> IsGenuine(p, log, phone, code, now)
  {
    LawfulIsInOrder(p, log);
    if s: nat :| IsLastIssue(log, phone, s) {
      RecordMeaning(p, log, phone, s);
      forall t: nat | IsLastIssue(log, phone, t) ensures t == s {
        assert IsIssue(log[t], phone) && IsIssue(log[s], phone);
      }
    } else {
      NoLastIssue(log, phone);
      NoIssueNoRecord(p, log, phone);
    }
  }

  lemma {:induction false} NoLastIssue(log: seq<Event>, phone: string)
    requires forall s: nat :: !IsLastIssue(log, phone, s)
    ensures forall i: nat | i < |log| :: !IsIssue(log[i], phone)
    decreases |log|
  {
    if log != [] {
      var n := |log| - 1;
      assert !IsLastIssue(log, phone, n);
      forall s: nat ensures !IsLastIssue(log[..n], phone, s) {
        assert !IsLastIssue(log, phone, s);
      }
      NoLastIssue(log[..n], phone);
      forall i: nat | i < |log| ensures !IsIssue(log[i], phone) {
        assert i < n ==> log[..n][i] == log[i];
      }
    }
  }

  /** A code is accepted once: a guess of the accepted code right after an accepted one is refused. */
  lemma AcceptedOnce(p: Policy, log: seq<Event>, phone: string, code: string, now: int, later: int)
    requires Accepts(p, RecordOf(p, log, phone), code, now)
    ensures !Accepts(p, RecordOf(p, log + [Guess(phone, code, now)], phone), code, later)
  {
  }

  // ─── How fast codes go out ──────────────────────────────────────────────────

  lemma {:induction false} LawfulPrefix(p: Policy, log: seq<Event>, n: nat)
    requires p.window > 0 && Lawful(p, log) && n < |log|
    ensures Lawful(p, log[..n]) && IsLawful(p, log[..n], log[n])
    decreases |log|
  {
    if n < |log| - 1 {
      LawfulPrefix(p, log[..|log| - 1], n);
      assert log[..|log| - 1][..n] == log[..n];
    }
  }

  /** Two codes for the same phone are at least a cooldown apart. */
  lemma CodesAreACooldownApart(p: Policy, log: seq<Event>, phone: string, i: nat, j: nat)
    requires p.window > 0 && Lawful(p, log) && i < j < |log| && IsIssue(log[i], phone) && IsIssue(log[j], phone)
    ensures log[j].at >= log[i].at + p.cooldown
  {
    LawfulPrefix(p, log, j);
    LawfulIsInOrder(p, log);
    var before := log[..j];
    LawfulIsInOrder(p, before);
    assert IsIssue(before[i], phone);
    if s: nat :| IsLastIssue(before, phone, s) {
      RecordMeaning(p, before, phone, s);
      assert i <= s;
      assert log[i].at <= log[s].at;
    } else {
      NoLastIssue(before, phone);
    }
  }

  /** A phone is cooling exactly while a code of the last cooldown seconds was issued to it. */
  lemma CoolingExactlyWhen(p: Policy, log: seq<Event>, phone: string, now: int)
    requires p.window > 0 && Lawful(p, log)
    ensures IsCooling(p, RecordOf(p, log, phone), now)
            <==> exists i: nat :: i < |log| && log[i].Issued? && log[i].phone == phone && now < log[i].at + p.cooldown
  {
    LawfulIsInOrder(p, log);
    if s: nat :| IsLastIssue(log, phone, s) {
      RecordMeaning(p, log, phone, s);
      assert IsIssue(log[s], phone);
      forall i: nat | i < |log| && log[i].Issued? && log[i].phone == phone ensures log[i].at <= log[s].at {
        assert IsIssue(log[i], phone);
      }
    } else {
      NoLastIssue(log, phone);
      NoIssueNoRecord(p, log, phone);
      forall i: nat | i < |log| ensures !(log[i].Issued? && log[i].phone == phone) {
        assert !IsIssue(log[i], phone);
      }
    }
  }

  /** The sends a window counts: the codes issued and the sends refused for being over the cap, not those refused
      during a cooldown. */
  lemma SendCountMeans(p: Policy, log: seq<Event>, phone: string, window: int)
    requires p.window > 0
    ensures SendCount(p, log, phone, window)
            == |set i: nat | i < |log| && (log[i].Issued? || log[i].OverCap?) && log[i].phone == phone
                && log[i].at / p.window == window|
  {
    var c := SendsOf(p, log, phone);
    var q := (i: nat) =>
      i < |log| && (log[i].Issued? || log[i].OverCap?) && log[i].phone == phone && log[i].at / p.window == window;
    forall i: nat | i < |log| ensures CountsIn(c, window)(i) == if q(i) then 1 else 0 {
      assert c.mine(i) <==> (log[i].Issued? || log[i].OverCap?) && log[i].phone == phone;
    }
    SumIsCount(|log|, CountsIn(c, window), q);
    assert (set i: nat | i < |log| && q(i))
        == set i: nat | i < |log| && (log[i].Issued? || log[i].OverCap?) && log[i].phone == phone
            && log[i].at / p.window == window;
  }

  function IssuedOne(log: seq<Event>, phone: string, lo: int, hi: int): nat -> int {
    (i: nat) => if i < |log| && IsIssue(log[i], phone) && lo <= log[i].at < hi then 1 else 0
  }

  function IssuedWithin(log: seq<Event>, phone: string, lo: int, hi: int): int {
    SumTo(|log|, IssuedOne(log, phone, lo, hi))
  }

  lemma IssuedIsPass(p: Policy, log: seq<Event>, phone: string, i: nat)
    requires p.window > 0 && Lawful(p, log) && i < |log|
    ensures IsIssue(log[i], phone) <==> Passes(SendsOf(p, log, phone), i)
  {
    assert IsLawful(p, log[..i], log[i]) by { LawfulPrefix(p, log, i); }
    var w := log[i].at / p.window;
    var c, c' := SendsOf(p, log[..i], phone), SendsOf(p, log, phone);
    forall k: nat | k < i ensures CountsIn(c, w)(k) == CountsIn(c', w)(k) {
      assert c.mine(k) == c'.mine(k) && c.at(k) == c'.at(k);
    }
    SumSame(i, CountsIn(c, w), CountsIn(c', w));
  }

  /** In any stretch as long as the send window, wherever it starts, at most twice the cap of codes go
      out to a phone; in an aligned window, at most the cap. */
  lemma CodesAreCapped(p: Policy, log: seq<Event>, phone: string, window: int, start: int)
    requires p.window > 0 && Lawful(p, log)
    ensures IssuedWithin(log, phone, window * p.window, window * p.window + p.window) <= Cap(p.maxSends)
    ensures IssuedWithin(log, phone, start, start + p.window) <= 2 * Cap(p.maxSends)
  {
    IssuedMeansPassed(p, log, phone, window * p.window, window * p.window + p.window);
    WindowBound(SendsOf(p, log, phone), window);
    IssuedMeansPassed(p, log, phone, start, start + p.window);
    RollingBound(SendsOf(p, log, phone), start, 1);
  }

  lemma IssuedMeansPassed(p: Policy, log: seq<Event>, phone: string, lo: int, hi: int)
    requires p.window > 0 && Lawful(p, log)
    ensures IssuedWithin(log, phone, lo, hi) == PassedWithin(SendsOf(p, log, phone), lo, hi)
  {
    var c := SendsOf(p, log, phone);
    forall i: nat | i < |log| ensures IssuedOne(log, phone, lo, hi)(i) == PassesWithin(c, lo, hi)(i) {
      IssuedIsPass(p, log, phone, i);
    }
    SumSame(|log|, IssuedOne(log, phone, lo, hi), PassesWithin(c, lo, hi));
  }
}
