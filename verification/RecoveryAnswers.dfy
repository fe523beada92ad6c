/**
  What the calls of account recovery answer: exactly when a code is sent, and what an
  issued, presented or revoked code changes.
 */
module RecoveryAnswers {
  import opened Prelude
  import opened Recovery

  /** A code is sent exactly when the channel works and the last one for that use is a minute (in microseconds) old. */
  lemma IssueAcceptedIff(s: State, settings: Settings, user: nat, purpose: Purpose, destination: string,
                         sending: Sending, now: int)
    ensures Issued(s, settings, user, purpose, destination, sending, now).Ok? <==>
      && sending.available && sending.delivered
      && forall k :: 0 <= k < |s.challenges| && s.challenges[k].user == user && s.challenges[k].purpose == purpose ==>
           IssuedAt(s.challenges[k], settings) + 60_000_000 <= now
  {
  }

  /** What a sent code leaves: one new challenge, open, and every earlier one for that use consumed. */
  lemma IssueEffect(s: State, settings: Settings, user: nat, purpose: Purpose, destination: string,
                    sending: Sending, now: int)
    requires Issued(s, settings, user, purpose, destination, sending, now).Ok?
    ensures
      var t, n := Issued(s, settings, user, purpose, destination, sending, now).state, |s.challenges|;
      && t.passwords == s.passwords && t.phones == s.phones && |t.challenges| == n + 1
      && (var c := t.challenges[n];
          && c.user == user && c.purpose == purpose && c.destination == destination && c.code == sending.code
          && c.expires == now + settings.minutes * 60_000_000 && c.attempts == 0 && c.consumed.None?)
      && forall k :: 0 <= k < n ==>
           var before, after := s.challenges[k], t.challenges[k];
           if before.user == user && before.purpose == purpose && before.consumed.None?
           then after == before.(consumed := Some(now)) else after == before
  {
  }

  /** A code that is not sent changes nothing, for the reason given. */
  lemma IssueReason(s: State, settings: Settings, user: nat, purpose: Purpose, destination: string,
                    sending: Sending, now: int)
    requires Issued(s, settings, user, purpose, destination, sending, now).Fail?
    ensures
      var r := Issued(s, settings, user, purpose, destination, sending, now);
      && r.state == s
      && match r.error
         case ChannelUnavailable => !sending.available
         case ResendWait =>
           exists k :: 0 <= k < |s.challenges| && s.challenges[k].user == user && s.challenges[k].purpose == purpose
                       && now < IssuedAt(s.challenges[k], settings) + 60_000_000
         case DeliveryFailed => !sending.delivered
         case _ => false
  {
  }

  /** The code is being compared: the challenge is of this use and owner, open, in time and under the cap. */
  predicate Compared(s: State, settings: Settings, p: Presented, purpose: Purpose, now: int) {
    && p.challenge < |s.challenges|
    && var c := s.challenges[p.challenge];
       && (p.owner.Some? ==> p.owner.value == c.user) && p.accepted && c.purpose == purpose
       && c.consumed.None? && now < c.expires && c.attempts < settings.cap
  }

  predicate OwnChallenge(s: State, p: Presented) {
    p.challenge < |s.challenges| && (p.owner.Some? ==> p.owner.value == s.challenges[p.challenge].user)
  }

  /** A presented code: accepted if it is compared and right, counted if compared and wrong, else nothing. */
  lemma VerifyMeaning(s: State, settings: Settings, p: Presented, purpose: Purpose, now: int)
    ensures
      var r := Verified(s, settings, p, purpose, now);
      && (r.Ok? <==> Compared(s, settings, p, purpose, now) && p.code == s.challenges[p.challenge].code)
      && (r.Ok? ==> r.state == s)
      && (r.Fail? ==>
           && (r.error == AccountRefused ==> !p.accepted)
           && (r.error != AccountRefused ==> r.error == InvalidCode)
           && (r.error == InvalidCode && OwnChallenge(s, p) ==> p.accepted)
           && r.state.passwords == s.passwords && r.state.phones == s.phones
           && |r.state.challenges| == |s.challenges|
           && forall k :: 0 <= k < |s.challenges| ==>
                if k == p.challenge && Compared(s, settings, p, purpose, now)
                then r.state.challenges[k] == s.challenges[k].(attempts := s.challenges[k].attempts + 1)
                else r.state.challenges[k] == s.challenges[k])
  {
  }

  /** A reset goes through exactly with a right reset code, and changes one password; it says nothing of its owner. */
  lemma ResetMeaning(s: State, settings: Settings, p: Presented, password: string, now: int)
    ensures
      var r := Reset(s, settings, p, password, now);
      && (r.Ok? <==> Compared(s, settings, p.(owner := None), PasswordReset, now)
                     && p.code == s.challenges[p.challenge].code)
      && (r.Ok? ==>
           var user := s.challenges[p.challenge].user;
           && r.state.passwords == s.passwords[user := password] && r.state.phones == s.phones
           && |r.state.challenges| == |s.challenges|
           && forall k :: 0 <= k < |s.challenges| ==>
                var before, after := s.challenges[k], r.state.challenges[k];
                if before.user == user && before.consumed.None?
                then after == before.(consumed := Some(now)) else after == before)
      && (r.Fail? ==> r == Verified(s, settings, p.(owner := None), PasswordReset, now))
  {
  }

  /** A phone is enrolled exactly with a right enrolment code; only it and its challenge change. */
  lemma PhoneMeaning(s: State, settings: Settings, p: Presented, now: int)
    ensures
      var r := PhoneVerified(s, settings, p, now);
      && (r.Ok? <==> Compared(s, settings, p, PhoneEnroll, now) && p.code == s.challenges[p.challenge].code)
      && (r.Ok? ==>
           var c := s.challenges[p.challenge];
           && r.state.phones == s.phones[c.user := c.destination] && r.state.passwords == s.passwords
           && r.state.challenges == s.challenges[p.challenge := c.(consumed := Some(now))])
      && (r.Fail? ==> r == Verified(s, settings, p, PhoneEnroll, now))
  {
  }

  /** Revoking an account closes its challenges and touches nothing else. */
  lemma RevokeMeaning(s: State, account: nat, now: int)
    ensures
      var t := Revoked(s, account, now);
      && t.passwords == s.passwords && t.phones == s.phones && |t.challenges| == |s.challenges|
      && forall k :: 0 <= k < |s.challenges| ==>
           var before, after := s.challenges[k], t.challenges[k];
           if before.user == account && before.consumed.None?
           then after == before.(consumed := Some(now)) else after == before
  {
  }

  /* ---- over a run ---- */

  /** The last password an accepted reset gave to the user, if there was one. */
  function LastReset(s: State, settings: Settings, events: seq<Event>, user: nat): Option<string> {
    if events == [] then None
    else
      var before, e := Run(s, settings, events[..|events| - 1]), events[|events| - 1];
      match e.step
      case ResetPassword(p, password) =>
        if Compared(before, settings, p.(owner := None), PasswordReset, e.now)
           && p.code == before.challenges[p.challenge].code && before.challenges[p.challenge].user == user
        then Some(password) else LastReset(s, settings, events[..|events| - 1], user)
      case _ => LastReset(s, settings, events[..|events| - 1], user)
  }

  /** Main result: over every run, the password of a user is the one of the last reset a right code allowed. */
  lemma {:induction false} PasswordIsLastReset(s: State, settings: Settings, events: seq<Event>, user: nat)
    ensures
      var t, last := Run(s, settings, events), LastReset(s, settings, events, user);
      if last.Some? then user in t.passwords && t.passwords[user] == last.value
      else (user in t.passwords <==> user in s.passwords)
           && (user in s.passwords ==> t.passwords[user] == s.passwords[user])
  {
    if events != [] {
      var before, e := Run(s, settings, events[..|events| - 1]), events[|events| - 1];
      PasswordIsLastReset(s, settings, events[..|events| - 1], user);
      match e.step
      case ResetPassword(p, password) =>
        ResetMeaning(before, settings, p, password, e.now);
        VerifyMeaning(before, settings, p.(owner := None), PasswordReset, e.now);
      case VerifyPhone(p) =>
        PhoneMeaning(before, settings, p, e.now);
        VerifyMeaning(before, settings, p, PhoneEnroll, e.now);
      case _ =>
    }
  }
}
