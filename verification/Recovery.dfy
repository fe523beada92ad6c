/**
  One-time codes for account recovery (`app/modules/auth/recovery.py`): a code a minute,
  one open challenge per user and purpose, a cap on wrong codes, and single use.

  Times are in microseconds. The digest of a code is taken to be injective, so comparing
  digests is comparing codes.
 */
module Recovery {
  import opened Prelude

  const MINUTE := 60_000_000

  datatype Purpose = PasswordReset | PhoneEnroll

  datatype Challenge = Challenge(
    user: nat, purpose: Purpose, destination: string, code: string, expires: int, attempts: nat, consumed: Option<int>)

  /** `recovery_otp_minutes` and `recovery_otp_attempts`. */
  datatype Settings = Settings(minutes: nat, cap: nat)

  /** A challenge is identified by its row, which is never removed. */
  datatype State = State(challenges: seq<Challenge>, passwords: map<nat, string>, phones: map<nat, string>)

  datatype Error = ChannelUnavailable | ResendWait | DeliveryFailed | InvalidCode | AccountRefused

  datatype Result = Ok(state: State) | Fail(error: Error, state: State)

  predicate For(c: Challenge, user: nat, purpose: Purpose) { c.user == user && c.purpose == purpose }

  function IssuedAt(c: Challenge, settings: Settings): int { c.expires - settings.minutes * MINUTE }

  /** An update over the open challenges of a user. */
  function Consume(cs: seq<Challenge>, which: Challenge -> bool, now: int): (r: seq<Challenge>)
    ensures |r| == |cs|
  {
    seq(|cs|, k requires 0 <= k < |cs| =>
      if which(cs[k]) && cs[k].consumed.None? then cs[k].(consumed := Some(now)) else cs[k])
  }

  predicate Recent(cs: seq<Challenge>, settings: Settings, user: nat, purpose: Purpose, now: int) {
    exists k :: 0 <= k < |cs| && For(cs[k], user, purpose) && cs[k].expires > now + settings.minutes * MINUTE - MINUTE
  }

  /** What a new code depends on besides the stored rows. */
  datatype Sending = Sending(available: bool, delivered: bool, code: string)

  function Issued(s: State, settings: Settings, user: nat, purpose: Purpose, destination: string, sending: Sending,
                  now: int): Result {
    if !sending.available then Fail(ChannelUnavailable, s)
    else if Recent(s.challenges, settings, user, purpose, now) then Fail(ResendWait, s)
    else if !sending.delivered then Fail(DeliveryFailed, s)
    else
      var issued := Challenge(user, purpose, destination, sending.code, now + settings.minutes * MINUTE, 0, None);
      Ok(s.(challenges := Consume(s.challenges, (c: Challenge) => For(c, user, purpose), now) + [issued]))
  }

  /** What a presented code depends on: the account may be refused by then. */
  datatype Presented = Presented(challenge: nat, code: string, owner: Option<nat>, accepted: bool)

  predicate Usable(s: State, settings: Settings, p: Presented, purpose: Purpose, now: int) {
    && p.challenge < |s.challenges|
    && (p.owner.None? || p.owner.value == s.challenges[p.challenge].user)
    && p.accepted
    && var c := s.challenges[p.challenge];
    && c.purpose == purpose && c.consumed.None? && now < c.expires && c.attempts < settings.cap
  }

  /** `verify`: a wrong code is counted and the count is committed. */
  function Verified(s: State, settings: Settings, p: Presented, purpose: Purpose, now: int): Result {
    if p.challenge >= |s.challenges| || (p.owner.Some? && p.owner.value != s.challenges[p.challenge].user) then
      Fail(InvalidCode, s)
    else if !p.accepted then Fail(AccountRefused, s)
    else
      var c := s.challenges[p.challenge];
      if c.purpose != purpose || c.consumed.Some? || c.expires <= now || c.attempts >= settings.cap
      then Fail(InvalidCode, s)
      else if p.code != c.code then
        Fail(InvalidCode, s.(challenges := s.challenges[p.challenge := c.(attempts := c.attempts + 1)]))
      else Ok(s)
  }

  /** The part of `revoke_accounts` about challenges. */
  function Revoked(s: State, user: nat, now: int): State {
    s.(challenges := Consume(s.challenges, (c: Challenge) => c.user == user, now))
  }

  function Reset(s: State, settings: Settings, p: Presented, password: string, now: int): Result {
    var r := Verified(s, settings, p.(owner := None), PasswordReset, now);
    if r.Fail? || p.challenge >= |s.challenges| then r
    else
      var user := s.challenges[p.challenge].user;
      Ok(Revoked(s.(passwords := s.passwords[user := password]), user, now))
  }

  function PhoneVerified(s: State, settings: Settings, p: Presented, now: int): Result {
    var r := Verified(s, settings, p, PhoneEnroll, now);
    if r.Fail? || p.challenge >= |s.challenges| then r
    else
      var c := s.challenges[p.challenge];
      Ok(s.(phones := s.phones[c.user := c.destination],
            challenges := s.challenges[p.challenge := c.(consumed := Some(now))]))
  }

  predicate Matches(expected: Result, after: State, error: Option<Error>) {
    after == expected.state && error == if expected.Ok? then None else Some(expected.error)
  }

  class RecoveryService {
    const settings: Settings
    var challenges: seq<Challenge>
    var passwords: map<nat, string>
    var phones: map<nat, string>

    function Rows(): State
      reads this
    {
      State(challenges, passwords, phones)
    }

    constructor (settings: Settings)
      ensures this.settings == settings && Rows() == State([], map[], map[])
    {
      this.settings := settings;
      challenges, passwords, phones := [], map[], map[];
    }

    method Issue(user: nat, purpose: Purpose, destination: string, sending: Sending, now: int)
      returns (error: Option<Error>)
      modifies this
      ensures Matches(Issued(old(Rows()), settings, user, purpose, destination, sending, now), Rows(), error)
    {
      if !sending.available { return Some(ChannelUnavailable); }
      if Recent(challenges, settings, user, purpose, now) { return Some(ResendWait); }
      var before := challenges;
      challenges := Consume(challenges, (c: Challenge) => For(c, user, purpose), now);
      challenges := challenges +
        [Challenge(user, purpose, destination, sending.code, now + settings.minutes * MINUTE, 0, None)];
      if !sending.delivered {
        challenges := before;
        return Some(DeliveryFailed);
      }
      return None;
    }

    method Verify(p: Presented, purpose: Purpose, now: int) returns (error: Option<Error>)
      modifies this
      ensures Matches(Verified(old(Rows()), settings, p, purpose, now), Rows(), error)
      ensures error.None? ==> p.challenge < |challenges|
    {
      if p.challenge >= |challenges| { return Some(InvalidCode); }
      var challenge := challenges[p.challenge];
      if p.owner.Some? && p.owner.value != challenge.user { return Some(InvalidCode); }
      if !p.accepted { return Some(AccountRefused); }
      if challenge.purpose != purpose || challenge.consumed.Some? || challenge.expires <= now
         || challenge.attempts >= settings.cap {
        return Some(InvalidCode);
      }
      if p.code != challenge.code {
        challenges := challenges[p.challenge := challenge.(attempts := challenge.attempts + 1)];
        return Some(InvalidCode);
      }
      return None;
    }

    method ResetPassword(p: Presented, password: string, now: int) returns (error: Option<Error>)
      modifies this
      ensures Matches(Reset(old(Rows()), settings, p, password, now), Rows(), error)
    {
      error := Verify(p.(owner := None), PasswordReset, now);
      if error.Some? { return; }
      var user := challenges[p.challenge].user;
      passwords := passwords[user := password];
      challenges := Consume(challenges, (c: Challenge) => c.user == user, now);
    }

    method VerifyPhone(p: Presented, now: int) returns (error: Option<Error>)
      modifies this
      ensures Matches(PhoneVerified(old(Rows()), settings, p, now), Rows(), error)
    {
      error := Verify(p, PhoneEnroll, now);
      if error.Some? { return; }
      var challenge := challenges[p.challenge];
      phones := phones[challenge.user := challenge.destination];
      challenges := challenges[p.challenge := challenge.(consumed := Some(now))];
    }
  }

  /* ---- runs ---- */

  datatype Step =
    | Issue(user: nat, purpose: Purpose, destination: string, sending: Sending)
    | ResetPassword(presented: Presented, password: string)
    | VerifyPhone(presented: Presented)
    | RevokeAccount(account: nat)

  /** A step at the time its handler read the clock. */
  datatype Event = Event(step: Step, now: int)

  function Next(s: State, settings: Settings, e: Event): State {
    match e.step
    case Issue(user, purpose, destination, sending) =>
      Issued(s, settings, user, purpose, destination, sending, e.now).state
    case ResetPassword(p, password) => Reset(s, settings, p, password, e.now).state
    case VerifyPhone(p) => PhoneVerified(s, settings, p, e.now).state
    case RevokeAccount(account) => Revoked(s, account, e.now)
  }

  function Run(s: State, settings: Settings, events: seq<Event>): State {
    if events == [] then s else Next(Run(s, settings, events[..|events| - 1]), settings, events[|events| - 1])
  }

  /** Codes of one user and purpose are at least a minute apart, and only the last can be open. */
  predicate Spaced(s: State, settings: Settings) {
    forall i, j ::
      0 <= i < j < |s.challenges| && For(s.challenges[j], s.challenges[i].user, s.challenges[i].purpose) ==>
      IssuedAt(s.challenges[i], settings) + MINUTE <= IssuedAt(s.challenges[j], settings)
  }

  predicate OnlyLastOpen(s: State) {
    forall i, j ::
      0 <= i < j < |s.challenges| && For(s.challenges[j], s.challenges[i].user, s.challenges[i].purpose) ==>
      s.challenges[i].consumed.Some?
  }

  predicate Capped(s: State, settings: Settings) {
    forall i :: 0 <= i < |s.challenges| ==> s.challenges[i].attempts <= settings.cap
  }

  predicate Sound(s: State, settings: Settings) {
    Spaced(s, settings) && OnlyLastOpen(s) && Capped(s, settings)
  }

  /** A challenge keeps everything but its count and its use, which only grow. */
  predicate Follows(before: Challenge, after: Challenge) {
    && after == before.(attempts := after.attempts, consumed := after.consumed)
    && before.attempts <= after.attempts
    && (before.consumed.Some? ==> after == before)
  }

  predicate Extends(before: State, after: State) {
    && |before.challenges| <= |after.challenges|
    && forall k :: 0 <= k < |before.challenges| ==> Follows(before.challenges[k], after.challenges[k])
  }

  lemma StepExtends(s: State, settings: Settings, e: Event)
    ensures Extends(s, Next(s, settings, e))
  {
  }

  /** What a step adds: at most one challenge, issued now, and not less than a minute after the last. */
  lemma StepAdds(s: State, settings: Settings, e: Event)
    ensures
      var t := Next(s, settings, e);
      var n := |s.challenges|;
      && n <= |t.challenges| <= n + 1
      && (|t.challenges| == n + 1 ==>
            var c := t.challenges[n];
            && IssuedAt(c, settings) == e.now && c.attempts == 0 && c.consumed.None?
            && !Recent(s.challenges, settings, c.user, c.purpose, e.now)
            && (forall k :: 0 <= k < n && For(s.challenges[k], c.user, c.purpose) ==> t.challenges[k].consumed.Some?))
  {
  }

  lemma StepCaps(s: State, settings: Settings, e: Event)
    requires Capped(s, settings)
    ensures Capped(Next(s, settings, e), settings)
  {
  }

  lemma KeepsIssue(before: Challenge, after: Challenge, settings: Settings)
    requires Follows(before, after)
    ensures after.user == before.user && after.purpose == before.purpose
    ensures IssuedAt(after, settings) == IssuedAt(before, settings)
    ensures before.consumed.Some? ==> after.consumed.Some?
  {
  }

  lemma StepIsSound(s: State, settings: Settings, e: Event)
    requires Sound(s, settings)
    ensures Sound(Next(s, settings, e), settings)
  {
    var t, n := Next(s, settings, e), |s.challenges|;
    StepExtends(s, settings, e);
    StepAdds(s, settings, e);
    StepCaps(s, settings, e);
    hide Next, Capped, Follows;
    forall i, j | 0 <= i < j < |t.challenges| && For(t.challenges[j], t.challenges[i].user, t.challenges[i].purpose)
      ensures IssuedAt(t.challenges[i], settings) + MINUTE <= IssuedAt(t.challenges[j], settings)
      ensures t.challenges[i].consumed.Some?
    {
      KeepsIssue(s.challenges[i], t.challenges[i], settings);
      if j < n { KeepsIssue(s.challenges[j], t.challenges[j], settings); }
    }
  }

  /** Main invariant: spacing, one open challenge per user and purpose, and the cap, over every run. */
  lemma {:induction false} RunIsSound(s: State, settings: Settings, events: seq<Event>)
    requires Sound(s, settings)
    ensures Sound(Run(s, settings, events), settings)
  {
    if events != [] {
      RunIsSound(s, settings, events[..|events| - 1]);
      StepIsSound(Run(s, settings, events[..|events| - 1]), settings, events[|events| - 1]);
    }
  }

  lemma ExtendsTransitive(a: State, b: State, c: State)
    requires Extends(a, b) && Extends(b, c)
    ensures Extends(a, c)
  {
    forall k | 0 <= k < |a.challenges| ensures Follows(a.challenges[k], c.challenges[k]) {
      assert Follows(a.challenges[k], b.challenges[k]);
      assert Follows(b.challenges[k], c.challenges[k]);
    }
  }

  lemma {:induction false} RunExtends(s: State, settings: Settings, events: seq<Event>)
    ensures Extends(s, Run(s, settings, events))
  {
    if events != [] {
      var before := Run(s, settings, events[..|events| - 1]);
      RunExtends(s, settings, events[..|events| - 1]);
      StepExtends(before, settings, events[|events| - 1]);
      ExtendsTransitive(s, before, Run(s, settings, events));
    }
  }

  /* ---- single use ---- */

  /** A code is accepted exactly when its challenge is usable and the code is right. */
  lemma AcceptedIff(s: State, settings: Settings, p: Presented, purpose: Purpose, now: int)
    ensures Verified(s, settings, p, purpose, now).Ok? <==>
            Usable(s, settings, p, purpose, now) && p.code == s.challenges[p.challenge].code
  {
  }

  /** Only the last challenge of a user and purpose is ever accepted. */
  lemma OnlyLastIsAccepted(s: State, settings: Settings, p: Presented, purpose: Purpose, now: int, later: nat)
    requires Sound(s, settings) && Verified(s, settings, p, purpose, now).Ok?
    requires p.challenge < later < |s.challenges|
    ensures !For(s.challenges[later], s.challenges[p.challenge].user, purpose)
  {
  }

  /** A challenge that was accepted is refused forever after, whatever happens in between. */
  lemma AcceptedOnce(s: State, settings: Settings, e: Event, events: seq<Event>, p: Presented, purpose: Purpose,
                     now: int)
    requires match e.step
             case ResetPassword(q, password) => q.challenge == p.challenge && Reset(s, settings, q, password, e.now).Ok?
             case VerifyPhone(q) => q.challenge == p.challenge && PhoneVerified(s, settings, q, e.now).Ok?
             case _ => false
    ensures
      var r := Verified(Run(Next(s, settings, e), settings, events), settings, p, purpose, now);
      r.Fail? && r.state == Run(Next(s, settings, e), settings, events)
  {
    var used := Next(s, settings, e);
    assert p.challenge < |used.challenges| && used.challenges[p.challenge].consumed.Some?;
    RunExtends(used, settings, events);
    assert Follows(used.challenges[p.challenge], Run(used, settings, events).challenges[p.challenge]);
  }

  /** A reset sets the password of the user alone and leaves no challenge of the user open, of any purpose. */
  lemma ResetClosesTheAccount(s: State, settings: Settings, p: Presented, password: string, now: int, k: nat)
    requires Reset(s, settings, p, password, now).Ok? && k < |s.challenges|
    ensures
      var t, user := Reset(s, settings, p, password, now).state, s.challenges[p.challenge].user;
      && user in t.passwords && t.passwords[user] == password
      && (forall u :: u != user ==>
        (u in t.passwords <==> u in s.passwords) && (u in s.passwords ==> t.passwords[u] == s.passwords[u]))
      && t.phones == s.phones
      && if s.challenges[k].user == user then t.challenges[k].consumed.Some? else t.challenges[k] == s.challenges[k]
  {
  }

  /** An enrolled phone is the one the accepted code was sent to. */
  lemma PhoneIsTheOneProved(s: State, settings: Settings, p: Presented, now: int)
    requires PhoneVerified(s, settings, p, now).Ok?
    ensures
      var t, c := PhoneVerified(s, settings, p, now).state, s.challenges[p.challenge];
      && c.user in t.phones && t.phones[c.user] == c.destination && c.purpose == PhoneEnroll && p.code == c.code
      && t.passwords == s.passwords
  {
  }

  /* ---- which codes work, over a whole run ---- */

  /** The step uses up challenge `k`: a newer code, an accepted one, or the account revoked. */
  predicate Closes(s: State, settings: Settings, e: Event, k: nat)
    requires k < |s.challenges|
  {
    var c := s.challenges[k];
    match e.step
    case Issue(user, purpose, destination, sending) =>
      For(c, user, purpose) && Issued(s, settings, user, purpose, destination, sending, e.now).Ok?
    case ResetPassword(p, password) =>
      Reset(s, settings, p, password, e.now).Ok? && s.challenges[p.challenge].user == c.user
    case VerifyPhone(p) => PhoneVerified(s, settings, p, e.now).Ok? && p.challenge == k
    case RevokeAccount(account) => account == c.user
  }

  /** The step compares a wrong code with challenge `k`. */
  predicate Misses(s: State, settings: Settings, e: Event, k: nat)
    requires k < |s.challenges|
  {
    match e.step
    case ResetPassword(p, _) =>
      p.challenge == k && Usable(s, settings, p.(owner := None), PasswordReset, e.now) && p.code != s.challenges[k].code
    case VerifyPhone(p) =>
      p.challenge == k && Usable(s, settings, p, PhoneEnroll, e.now) && p.code != s.challenges[k].code
    case _ => false
  }

  predicate EverCloses(s: State, settings: Settings, events: seq<Event>, k: nat)
    requires k < |s.challenges|
  {
    events != [] &&
    var before := Run(s, settings, events[..|events| - 1]);
    EverCloses(s, settings, events[..|events| - 1], k)
    || (k < |before.challenges| && Closes(before, settings, events[|events| - 1], k))
  }

  function MissCount(s: State, settings: Settings, events: seq<Event>, k: nat): nat
    requires k < |s.challenges|
  {
    if events == [] then 0
    else
      var before := Run(s, settings, events[..|events| - 1]);
      MissCount(s, settings, events[..|events| - 1], k)
      + if k < |before.challenges| && Misses(before, settings, events[|events| - 1], k) then 1 else 0
  }

  predicate AfterStep(before: Challenge, after: Challenge, closed: bool, missed: bool) {
    && (after.consumed.None? <==> before.consumed.None? && !closed)
    && after.attempts == before.attempts + if missed then 1 else 0
  }

  /** What a presented code does to challenge `k`, before it is used up. */
  lemma VerifiedOnChallenge(s: State, settings: Settings, p: Presented, purpose: Purpose, now: int, k: nat)
    requires k < |s.challenges|
    ensures
      var t := Verified(s, settings, p, purpose, now).state;
      && |t.challenges| == |s.challenges|
      && AfterStep(s.challenges[k], t.challenges[k], false,
                   p.challenge == k && Usable(s, settings, p, purpose, now) && p.code != s.challenges[k].code)
  {
  }

  lemma StepOnChallenge(s: State, settings: Settings, e: Event, k: nat)
    requires k < |s.challenges|
    ensures
      var t := Next(s, settings, e);
      k < |t.challenges|
      && AfterStep(s.challenges[k], t.challenges[k], Closes(s, settings, e, k), Misses(s, settings, e, k))
  {
    match e.step
    case ResetPassword(p, _) =>
      VerifiedOnChallenge(s, settings, p.(owner := None), PasswordReset, e.now, k);
      AcceptedIff(s, settings, p.(owner := None), PasswordReset, e.now);
      hide Verified, Usable;
    case VerifyPhone(p) =>
      VerifiedOnChallenge(s, settings, p, PhoneEnroll, e.now, k);
      AcceptedIff(s, settings, p, PhoneEnroll, e.now);
      hide Verified, Usable;
    case _ =>
  }

  /** A challenge is open until the first step that closes it, and counts the misses. */
  lemma {:induction false} ChallengeOverRun(s: State, settings: Settings, events: seq<Event>, k: nat)
    requires k < |s.challenges|
    ensures
      var t := Run(s, settings, events);
      && k < |t.challenges| && Follows(s.challenges[k], t.challenges[k])
      && (t.challenges[k].consumed.None? <==> s.challenges[k].consumed.None? && !EverCloses(s, settings, events, k))
      && t.challenges[k].attempts == s.challenges[k].attempts + MissCount(s, settings, events, k)
  {
    RunExtends(s, settings, events);
    if events != [] {
      var before := Run(s, settings, events[..|events| - 1]);
      ChallengeOverRun(s, settings, events[..|events| - 1], k);
      hide Next, Closes, Misses;
      StepOnChallenge(before, settings, events[|events| - 1], k);
    }
  }

  /**
    Main result: a code just sent works, after whatever happens in between, exactly for its
    owner and purpose, until it expires, while nothing has closed its challenge and fewer
    wrong codes than the cap were compared with it.
   */
  lemma SentCodeWorksIff(s: State, settings: Settings, user: nat, purpose: Purpose, destination: string,
                         sending: Sending, at: int,
                         events: seq<Event>, p: Presented, asked: Purpose, now: int)
    requires Issued(s, settings, user, purpose, destination, sending, at).Ok? && p.challenge == |s.challenges|
    ensures
      var sent := Issued(s, settings, user, purpose, destination, sending, at).state;
      Verified(Run(sent, settings, events), settings, p, asked, now).Ok? <==>
        && asked == purpose && (p.owner.None? || p.owner.value == user) && p.accepted && p.code == sending.code
        && now < at + settings.minutes * MINUTE
        && !EverCloses(sent, settings, events, p.challenge)
        && MissCount(sent, settings, events, p.challenge) < settings.cap
  {
    var sent := Issued(s, settings, user, purpose, destination, sending, at).state;
    var k := |s.challenges|;
    assert sent.challenges[k].consumed.None? && sent.challenges[k].attempts == 0;
    ChallengeOverRun(sent, settings, events, k);
    hide Run, EverCloses, MissCount;
    AcceptedIff(Run(sent, settings, events), settings, p, asked, now);
  }

  /* ---- enrolled phones ---- */

  /** Somebody proved the phone: a used challenge sent to it, for that user. */
  predicate PhoneProved(s: State, user: nat, phone: string) {
    exists k :: 0 <= k < |s.challenges| && For(s.challenges[k], user, PhoneEnroll)
                && s.challenges[k].destination == phone && s.challenges[k].consumed.Some?
  }

  predicate PhonesProved(s: State) { forall u :: u in s.phones ==> PhoneProved(s, u, s.phones[u]) }

  lemma ProofStays(s: State, t: State, user: nat, phone: string)
    requires Extends(s, t) && PhoneProved(s, user, phone)
    ensures PhoneProved(t, user, phone)
  {
    var k :| 0 <= k < |s.challenges| && For(s.challenges[k], user, PhoneEnroll)
             && s.challenges[k].destination == phone && s.challenges[k].consumed.Some?;
    assert Follows(s.challenges[k], t.challenges[k]);
    assert For(t.challenges[k], user, PhoneEnroll);
  }

  lemma NewPhone(s: State, settings: Settings, e: Event, u: nat)
    requires u in Next(s, settings, e).phones && (u in s.phones ==> Next(s, settings, e).phones[u] != s.phones[u])
    ensures PhoneProved(Next(s, settings, e), u, Next(s, settings, e).phones[u])
  {
    var t := Next(s, settings, e);
    match e.step
    case VerifyPhone(p) =>
      if PhoneVerified(s, settings, p, e.now).Ok? {
        PhoneIsTheOneProved(s, settings, p, e.now);
        assert For(t.challenges[p.challenge], u, PhoneEnroll);
      }
    case _ =>
  }

  lemma PhoneStep(s: State, settings: Settings, e: Event)
    requires PhonesProved(s) && Extends(s, Next(s, settings, e))
    ensures PhonesProved(Next(s, settings, e))
  {
    var t := Next(s, settings, e);
    forall u | u in t.phones ensures PhoneProved(t, u, t.phones[u]) {
      if u in s.phones && t.phones[u] == s.phones[u] {
        ProofStays(s, t, u, s.phones[u]);
      } else {
        NewPhone(s, settings, e, u);
      }
    }
  }

  /** Over every run, every enrolled phone received a code that was then presented for that user. */
  lemma {:induction false} EnrolledPhonesAreProved(s: State, settings: Settings, events: seq<Event>)
    requires PhonesProved(s)
    ensures PhonesProved(Run(s, settings, events))
  {
    if events != [] {
      var before, e := Run(s, settings, events[..|events| - 1]), events[|events| - 1];
      EnrolledPhonesAreProved(s, settings, events[..|events| - 1]);
      StepExtends(before, settings, e);
      PhoneStep(before, settings, e);
    }
  }

  /* ---- how many codes, how many guesses ---- */

  /** Challenges of a user and purpose from row `m` to row `n`. */
  function Codes(cs: seq<Challenge>, user: nat, purpose: Purpose, m: nat, n: nat): (r: nat)
    requires m <= n <= |cs|
    ensures r <= n - m
  {
    if m == n then 0 else Codes(cs, user, purpose, m, n - 1) + if For(cs[n - 1], user, purpose) then 1 else 0
  }

  /** Wrong codes compared for a user and purpose, over the first `n` rows. */
  function Guesses(cs: seq<Challenge>, user: nat, purpose: Purpose, n: nat): nat
    requires n <= |cs|
  {
    if n == 0 then 0
    else Guesses(cs, user, purpose, n - 1) + if For(cs[n - 1], user, purpose) then cs[n - 1].attempts else 0
  }

  /** Minutes, rounded up. */
  function CeilMinutes(span: nat): nat { (span + MINUTE - 1) / MINUTE }

  /** Codes a minute apart, all issued from `from` up to `to`, are at most the minutes between, rounded up. */
  lemma {:induction false} CodesAreSpaced(s: State, settings: Settings, user: nat, purpose: Purpose,
                                          m: nat, n: nat, from: int, to: int)
    requires Spaced(s, settings) && m <= n <= |s.challenges|
    requires forall k :: m <= k < n && For(s.challenges[k], user, purpose) ==>
      from <= IssuedAt(s.challenges[k], settings) < to
    ensures Codes(s.challenges, user, purpose, m, n) * MINUTE < Max(to - from, 0) + MINUTE
  {
    if m < n {
      var c := s.challenges[n - 1];
      var before := if For(c, user, purpose) then IssuedAt(c, settings) - MINUTE + 1 else to;
      CodesAreSpaced(s, settings, user, purpose, m, n - 1, from, before);
    }
  }

  /** A wrong code is compared: the challenge is usable and the code is not its own. */
  predicate WrongGuess(s: State, settings: Settings, e: Event, user: nat, purpose: Purpose) {
    match e.step
    case ResetPassword(p, _) =>
      && purpose == PasswordReset && Usable(s, settings, p.(owner := None), PasswordReset, e.now)
      && s.challenges[p.challenge].user == user && p.code != s.challenges[p.challenge].code
    case VerifyPhone(p) =>
      && purpose == PhoneEnroll && Usable(s, settings, p, PhoneEnroll, e.now)
      && s.challenges[p.challenge].user == user && p.code != s.challenges[p.challenge].code
    case _ => false
  }

  function WrongGuesses(s: State, settings: Settings, events: seq<Event>, user: nat, purpose: Purpose): nat {
    if events == [] then 0
    else
      var before := Run(s, settings, events[..|events| - 1]);
      WrongGuesses(s, settings, events[..|events| - 1], user, purpose)
      + if WrongGuess(before, settings, events[|events| - 1], user, purpose) then 1 else 0
  }

  lemma {:induction false} SameAttempts(a: seq<Challenge>, b: seq<Challenge>, user: nat, purpose: Purpose, n: nat)
    requires n <= |a| && n <= |b|
    requires forall k :: 0 <= k < n ==> For(a[k], user, purpose) == For(b[k], user, purpose)
    requires forall k :: 0 <= k < n && For(a[k], user, purpose) ==> a[k].attempts == b[k].attempts
    ensures Guesses(a, user, purpose, n) == Guesses(b, user, purpose, n)
  {
    if n > 0 { SameAttempts(a, b, user, purpose, n - 1); }
  }

  lemma {:induction false} OneMoreAttempt(cs: seq<Challenge>, k: nat, user: nat, purpose: Purpose, n: nat)
    requires k < n <= |cs|
    ensures
      var more := cs[k := cs[k].(attempts := cs[k].attempts + 1)];
      Guesses(more, user, purpose, n) == Guesses(cs, user, purpose, n) + if For(cs[k], user, purpose) then 1 else 0
  {
    var more := cs[k := cs[k].(attempts := cs[k].attempts + 1)];
    if k == n - 1 {
      SameAttempts(cs, more, user, purpose, n - 1);
    } else {
      OneMoreAttempt(cs, k, user, purpose, n - 1);
    }
  }

  /** Checking a code counts one guess exactly when a wrong code is compared. */
  lemma VerifiedCounts(s: State, settings: Settings, p: Presented, purpose: Purpose, now: int, user: nat,
                       counted: Purpose)
    ensures
      var t := Verified(s, settings, p, purpose, now).state;
      var wrong := Usable(s, settings, p, purpose, now) && p.code != s.challenges[p.challenge].code;
      && |t.challenges| == |s.challenges|
      && Guesses(t.challenges, user, counted, |t.challenges|) ==
         Guesses(s.challenges, user, counted, |s.challenges|)
         + if wrong && s.challenges[p.challenge].user == user && purpose == counted then 1 else 0
  {
    if Usable(s, settings, p, purpose, now) && p.code != s.challenges[p.challenge].code {
      OneMoreAttempt(s.challenges, p.challenge, user, counted, |s.challenges|);
    }
  }

  lemma IssueCountsNothing(s: State, settings: Settings, e: Event, user: nat, purpose: Purpose)
    requires e.step.Issue?
    ensures
      var t := Next(s, settings, e);
      Guesses(t.challenges, user, purpose, |t.challenges|) == Guesses(s.challenges, user, purpose, |s.challenges|)
  {
    var t, n := Next(s, settings, e), |s.challenges|;
    SameAttempts(s.challenges, t.challenges, user, purpose, n);
  }

  lemma ResetCountsGuess(s: State, settings: Settings, p: Presented, password: string, now: int, user: nat,
                         purpose: Purpose)
    ensures
      var t := Reset(s, settings, p, password, now).state;
      Guesses(t.challenges, user, purpose, |t.challenges|) ==
      Guesses(s.challenges, user, purpose, |s.challenges|)
      + if WrongGuess(s, settings, Event(ResetPassword(p, password), now), user, purpose) then 1 else 0
  {
    var r := Reset(s, settings, p, password, now);
    VerifiedCounts(s, settings, p.(owner := None), PasswordReset, now, user, purpose);
    hide Guesses;
    if r.Ok? { SameAttempts(s.challenges, r.state.challenges, user, purpose, |s.challenges|); }
  }

  lemma PhoneCountsGuess(s: State, settings: Settings, p: Presented, now: int, user: nat, purpose: Purpose)
    ensures
      var t := PhoneVerified(s, settings, p, now).state;
      Guesses(t.challenges, user, purpose, |t.challenges|) ==
      Guesses(s.challenges, user, purpose, |s.challenges|)
      + if WrongGuess(s, settings, Event(VerifyPhone(p), now), user, purpose) then 1 else 0
  {
    var r := PhoneVerified(s, settings, p, now);
    VerifiedCounts(s, settings, p, PhoneEnroll, now, user, purpose);
    hide Guesses;
    if r.Ok? { SameAttempts(s.challenges, r.state.challenges, user, purpose, |s.challenges|); }
  }

  /** The attempts stored grow by one with every wrong code compared, and only then. */
  lemma StepCountsGuess(s: State, settings: Settings, e: Event, user: nat, purpose: Purpose)
    ensures
      var t := Next(s, settings, e);
      Guesses(t.challenges, user, purpose, |t.challenges|) ==
      Guesses(s.challenges, user, purpose, |s.challenges|) + if WrongGuess(s, settings, e, user, purpose) then 1 else 0
  {
    hide Guesses, Issued, Reset, PhoneVerified, Usable;
    match e.step
    case Issue(_, _, _, _) => IssueCountsNothing(s, settings, e, user, purpose);
    case ResetPassword(p, password) => ResetCountsGuess(s, settings, p, password, e.now, user, purpose);
    case VerifyPhone(p) => PhoneCountsGuess(s, settings, p, e.now, user, purpose);
    case RevokeAccount(account) =>
      SameAttempts(s.challenges, Revoked(s, account, e.now).challenges, user, purpose, |s.challenges|);
  }

  lemma {:induction false} AttemptsCountGuesses(s: State, settings: Settings, events: seq<Event>, user: nat,
                                                purpose: Purpose)
    ensures
      var t := Run(s, settings, events);
      Guesses(t.challenges, user, purpose, |t.challenges|) ==
      Guesses(s.challenges, user, purpose, |s.challenges|) + WrongGuesses(s, settings, events, user, purpose)
  {
    if events != [] {
      AttemptsCountGuesses(s, settings, events[..|events| - 1], user, purpose);
      StepCountsGuess(Run(s, settings, events[..|events| - 1]), settings, events[|events| - 1], user, purpose);
    }
  }

  predicate Within(events: seq<Event>, from: int, to: int) {
    forall k :: 0 <= k < |events| ==> from <= events[k].now < to
  }

  lemma {:induction false} IssuedInRun(s: State, settings: Settings, events: seq<Event>, from: int, to: int)
    requires Within(events, from, to)
    ensures
      var t := Run(s, settings, events);
      && |s.challenges| <= |t.challenges|
      && forall k :: |s.challenges| <= k < |t.challenges| ==> from <= IssuedAt(t.challenges[k], settings) < to
  {
    if events != [] {
      var before, e := Run(s, settings, events[..|events| - 1]), events[|events| - 1];
      IssuedInRun(s, settings, events[..|events| - 1], from, to);
      StepExtends(before, settings, e);
      StepAdds(before, settings, e);
      var t := Run(s, settings, events);
      forall k | |s.challenges| <= k < |t.challenges| ensures from <= IssuedAt(t.challenges[k], settings) < to {
        if k < |before.challenges| { assert Follows(before.challenges[k], t.challenges[k]); }
      }
    }
  }

  predicate AnyOpen(cs: seq<Challenge>, user: nat, purpose: Purpose, n: nat)
    requires n <= |cs|
  {
    exists k :: 0 <= k < n && For(cs[k], user, purpose) && cs[k].consumed.None?
  }

  /** Of the challenges there at the start, only the open one can still be guessed at. */
  lemma {:induction false} OldGuesses(s: State, t: State, settings: Settings, user: nat, purpose: Purpose, n: nat)
    requires OnlyLastOpen(s) && Extends(s, t) && Capped(t, settings) && n <= |s.challenges|
    ensures Guesses(t.challenges, user, purpose, n) <=
            Guesses(s.challenges, user, purpose, n)
            + if AnyOpen(s.challenges, user, purpose, n) then settings.cap else 0
  {
    if n > 0 {
      OldGuesses(s, t, settings, user, purpose, n - 1);
      assert Follows(s.challenges[n - 1], t.challenges[n - 1]);
      if For(s.challenges[n - 1], user, purpose) && s.challenges[n - 1].consumed.None? {
        assert !AnyOpen(s.challenges, user, purpose, n - 1);
      }
    }
  }

  lemma Times(a: nat, b: nat)
    ensures a * (b + 1) == a * b + a
  {
  }

  lemma {:induction false} NewGuesses(t: State, settings: Settings, user: nat, purpose: Purpose, m: nat, n: nat)
    requires Capped(t, settings) && m <= n <= |t.challenges|
    ensures Guesses(t.challenges, user, purpose, n) <=
            Guesses(t.challenges, user, purpose, m) + settings.cap * Codes(t.challenges, user, purpose, m, n)
  {
    if m < n {
      NewGuesses(t, settings, user, purpose, m, n - 1);
      Times(settings.cap, Codes(t.challenges, user, purpose, m, n - 1));
    }
  }

  lemma RoundedUp(n: nat, span: nat)
    requires n * MINUTE < span + MINUTE
    ensures n <= CeilMinutes(span)
  {
  }

  /** Main result: the codes issued in a span are at most its minutes, rounded up. */
  lemma CodesBounded(s: State, settings: Settings, events: seq<Event>, user: nat, purpose: Purpose, from: int,
                     span: nat)
    requires Sound(s, settings) && Within(events, from, from + span)
    ensures
      var t := Run(s, settings, events);
      && |s.challenges| <= |t.challenges|
      && Codes(t.challenges, user, purpose, |s.challenges|, |t.challenges|) <= CeilMinutes(span)
  {
    var t := Run(s, settings, events);
    RunIsSound(s, settings, events);
    IssuedInRun(s, settings, events, from, from + span);
    CodesAreSpaced(t, settings, user, purpose, |s.challenges|, |t.challenges|, from, from + span);
    RoundedUp(Codes(t.challenges, user, purpose, |s.challenges|, |t.challenges|), span);
  }

  lemma AtMost(cap: nat, a: nat, b: nat)
    requires a <= b
    ensures cap * a + cap <= cap * (b + 1)
  {
    assert cap * (b + 1) - cap * a - cap == cap * (b - a);
  }

  /** Main result: wrong codes compared in a span are at most the cap for each code issued in it, and one more. */
  lemma GuessesBounded(s: State, settings: Settings, events: seq<Event>, user: nat, purpose: Purpose, from: int,
                       span: nat)
    requires Sound(s, settings) && Within(events, from, from + span)
    ensures WrongGuesses(s, settings, events, user, purpose) <= settings.cap * (CeilMinutes(span) + 1)
  {
    hide Guesses, Codes, WrongGuesses, Run, Spaced, Capped, OnlyLastOpen, Within, CeilMinutes, Follows;
    var t := Run(s, settings, events);
    var m, n := |s.challenges|, |t.challenges|;
    RunIsSound(s, settings, events);
    RunExtends(s, settings, events);
    AttemptsCountGuesses(s, settings, events, user, purpose);
    CodesBounded(s, settings, events, user, purpose, from, span);
    OldGuesses(s, t, settings, user, purpose, m);
    NewGuesses(t, settings, user, purpose, m, n);
    var codes := Codes(t.challenges, user, purpose, m, n);
    AtMost(settings.cap, codes, CeilMinutes(span));
  }
}
