/** The subscription endpoints (server/src/subscriber/subscriber.controller.ts):
    request a verification code, verify it, unsubscribe by token, and the
    development-only trigger of the weekly report. The subscriber table is a
    map from email (its unique key) to the row; `unsubscribeToken` is a
    second unique column. Randomness, the uuid, the clock and the mail
    service's success are inputs. Each handler is specified by a function
    from the table before to the table after and the reply; the class below
    runs the handlers against one table. */
module SubscriberController {
  import opened Wrappers
  import opened Schema
  import opened JsNumbers
  import ExceptionsFilter
  import Scheduler

  type Table = map<string, Subscriber>

  /** Why a handler fails. `StoreConflict` is the unique-constraint error the
      database raises when a newToken token is already held by another row;
      `MailFailed` is the error the mail service rethrows. */
  datatype Rejection =
    | UnknownEmail
    | CodeExpired
    | CodeMismatch
    | InvalidToken
    | NotInProduction
    | StoreConflict
    | MailFailed
  {
    /** The exception the handler throws. */
    function Thrown(): ExceptionsFilter.Thrown {
      match this
      case UnknownEmail => ExceptionsFilter.BadRequest("등록되지 않은 이메일입니다")
      case CodeExpired => ExceptionsFilter.BadRequest("인증 코드가 만료되었습니다. 다시 요청해주세요")
      case CodeMismatch => ExceptionsFilter.BadRequest("인증 코드가 올바르지 않습니다")
      case InvalidToken => ExceptionsFilter.BadRequest("Invalid token")
      case NotInProduction => ExceptionsFilter.Forbidden("This endpoint is not available in production")
      case StoreConflict => ExceptionsFilter.OtherError
      case MailFailed => ExceptionsFilter.OtherError
    }
  }

  /** The table after a handler, and what it answers. */
  datatype Step = Step(table: Table, reply: Result<string, Rejection>)

  /** Every row is stored under its own email. */
  predicate KeyedByEmail(t: Table) {
    forall e :: e in t ==> t[e].email == e
  }

  /** No two rows hold the same token. */
  predicate UniqueTokens(t: Table) {
    forall a, b :: a in t && b in t && a != b && t[a].unsubscribeToken.Some? ==>
      t[a].unsubscribeToken != t[b].unsubscribeToken
  }

  predicate ValidTable(t: Table) {
    KeyedByEmail(t) && UniqueTokens(t)
  }

  /** Some row other than the one for `email` holds `token`. */
  predicate HeldByOther(t: Table, email: string, token: string) {
    exists e :: e in t && e != email && t[e].unsubscribeToken == Some(token)
  }

  // ---------------------------------------------------------------- codes

  const CodeLow: nat := 100000
  const CodeSpan: nat := 900000
  const CodeTtlMs: int := 10 * 60 * SecondMs

  /** `Math.floor(100000 + Math.random() * 900000).toString()`, with the
      floored random part `rand` in [0, 900000) as input. */
  function NewCode(rand: nat): (code: string)
    requires rand < CodeSpan
    ensures |code| == 6 && AllDigits(code)
    ensures 100000 <= DigitsValue(code) <= 999999
    ensures DigitsValue(code) == CodeLow + rand
  {
    DecimalStringLength(CodeLow + rand, 6);
    DecimalString(CodeLow + rand)
  }

  /** The expiry: ten minutes after `now`. */
  function CodeExpiry(now: int): (t: int)
    ensures t - now == 600000
  {
    now + CodeTtlMs
  }

  // ------------------------------------------------------- request a code

  /** `existing?.unsubscribeToken || unsubscribeToken`: a stored non-empty
      token is kept, otherwise the new one is used. */
  function FinalToken(t: Table, email: string, newToken: string): (token: string)
    ensures email in t && t[email].unsubscribeToken.Some? && t[email].unsubscribeToken.value != "" ==>
      Some(token) == t[email].unsubscribeToken
    ensures !(email in t && t[email].unsubscribeToken.Some? && t[email].unsubscribeToken.value != "") ==>
      token == newToken
  {
    if email in t && t[email].unsubscribeToken.Some? && t[email].unsubscribeToken.value != "" then
      t[email].unsubscribeToken.value
    else newToken
  }

  /** The upserted row: an update touches only code, expiry and token; a new
      row is active and not yet verified. */
  function Upserted(t: Table, email: string, code: string, expiresAt: int, token: string): Subscriber {
    if email in t then
      t[email].(verificationCode := Some(code), codeExpiresAt := Some(expiresAt), unsubscribeToken := Some(token))
    else
      Subscriber(email, Some(code), Some(expiresAt), true, false, Some(token))
  }

  /** `requestVerification`: upsert by email, then mail the code. A token the
      database already holds for another row makes the upsert fail and
      nothing changes; a failing mail leaves the upsert in place and
      answers with an error. */
  function RequestStep(t: Table, email: string, code: string, expiresAt: int,
                       newToken: string, mailFails: bool): (s: Step)
    ensures HeldByOther(t, email, FinalToken(t, email, newToken)) ==> s == Step(t, Failure(StoreConflict))
    ensures !HeldByOther(t, email, FinalToken(t, email, newToken)) ==>
      && s.table == t[email := Upserted(t, email, code, expiresAt, FinalToken(t, email, newToken))]
      && s.reply == (if mailFails then Failure(MailFailed) else Success("Verification code sent"))
  {
    var token := FinalToken(t, email, newToken);
    if HeldByOther(t, email, token) then Step(t, Failure(StoreConflict))
    else
      var t' := t[email := Upserted(t, email, code, expiresAt, token)];
      Step(t', if mailFails then Failure(MailFailed) else Success("Verification code sent"))
  }

  /** At most one row per email: a request changes the row for `email` only,
      adding it when missing, and stores the code, its expiry and a token. */
  lemma RequestUpsertsByEmail(t: Table, email: string, code: string, expiresAt: int,
                              newToken: string, mailFails: bool)
    requires ValidTable(t)
    ensures var s := RequestStep(t, email, code, expiresAt, newToken, mailFails);
      && ValidTable(s.table)
      && s.table.Keys <= t.Keys + {email}
      && (forall e :: e in t && e != email ==> e in s.table && s.table[e] == t[e])
      && (s.reply != Failure(StoreConflict) ==>
            && email in s.table
            && s.table[email].verificationCode == Some(code)
            && s.table[email].codeExpiresAt == Some(expiresAt)
            && s.table[email].unsubscribeToken.Some?)
  {
    var s := RequestStep(t, email, code, expiresAt, newToken, mailFails);
    var token := FinalToken(t, email, newToken);
    if !HeldByOther(t, email, token) {
      var u := s.table;
      forall a, b | a in u && b in u && a != b && u[a].unsubscribeToken.Some?
        ensures u[a].unsubscribeToken != u[b].unsubscribeToken
      {
        if a == email {
          assert !(b in t && b != email && t[b].unsubscribeToken == Some(token));
        } else if b == email {
          assert !(a in t && a != email && t[a].unsubscribeToken == Some(token));
        }
      }
    }
  }

  /** A repeated request keeps the token the row already has, and cannot
      collide with another row because tokens are unique. */
  lemma RequestKeepsToken(t: Table, email: string, code: string, expiresAt: int,
                          newToken: string, mailFails: bool)
    requires ValidTable(t)
    requires email in t && t[email].unsubscribeToken.Some? && t[email].unsubscribeToken.value != ""
    ensures var s := RequestStep(t, email, code, expiresAt, newToken, mailFails);
      s.reply != Failure(StoreConflict) && s.table[email].unsubscribeToken == t[email].unsubscribeToken
  {
  }

  /** An update leaves the email and the flags alone; a new row starts
      active and unverified. */
  lemma RequestKeepsFlags(t: Table, email: string, code: string, expiresAt: int,
                          newToken: string, mailFails: bool)
    requires KeyedByEmail(t)
    ensures var s := RequestStep(t, email, code, expiresAt, newToken, mailFails);
      s.reply != Failure(StoreConflict) ==>
        && email in s.table
        && s.table[email].email == email
        && (email in t ==>
              && s.table[email].isActive == t[email].isActive
              && s.table[email].isVerified == t[email].isVerified
              && s.table[email].email == t[email].email)
        && (email !in t ==> s.table[email].isActive && !s.table[email].isVerified)
  {
  }

  // -------------------------------------------------------- verify a code

  /** `verifyCode`: unknown email, then expired code, then wrong code; on
      success the row is verified and its code and expiry cleared. */
  function VerifyStep(t: Table, email: string, code: string, now: int): (s: Step)
    ensures s.reply.Failure? ==> s.table == t
    ensures email !in t <==> s.reply == Failure(UnknownEmail)
    ensures email in t ==>
      (s.reply == Failure(CodeExpired) <==> t[email].codeExpiresAt.Some? && t[email].codeExpiresAt.value < now)
    ensures email in t && !(t[email].codeExpiresAt.Some? && t[email].codeExpiresAt.value < now) ==>
      (s.reply == Failure(CodeMismatch) <==> t[email].verificationCode != Some(code))
    ensures s.reply.Success? <==>
      email in t && !(t[email].codeExpiresAt.Some? && t[email].codeExpiresAt.value < now)
      && t[email].verificationCode == Some(code)
    ensures s.reply.Success? ==>
      s.reply.value == "Subscription verified" &&
      s.table == t[email := t[email].(isVerified := true, verificationCode := None, codeExpiresAt := None)]
  {
    if email !in t then Step(t, Failure(UnknownEmail))
    else
      var row := t[email];
      if row.codeExpiresAt.Some? && row.codeExpiresAt.value < now then Step(t, Failure(CodeExpired))
      else if row.verificationCode != Some(code) then Step(t, Failure(CodeMismatch))
      else Step(t[email := row.(isVerified := true, verificationCode := None, codeExpiresAt := None)],
                Success("Subscription verified"))
  }

  /** A code works once: verifying again with it, at any time, fails as a mismatch. */
  lemma VerifyTwiceMismatches(t: Table, email: string, code: string, now: int, later: int)
    requires VerifyStep(t, email, code, now).reply.Success?
    ensures VerifyStep(VerifyStep(t, email, code, now).table, email, code, later).reply == Failure(CodeMismatch)
  {
  }

  /** Verification keeps the table valid and touches only the verified row's
      flag, code and expiry. */
  lemma VerifyKeepsOthers(t: Table, email: string, code: string, now: int)
    requires ValidTable(t)
    ensures var s := VerifyStep(t, email, code, now);
      && ValidTable(s.table)
      && s.table.Keys == t.Keys
      && (forall e :: e in t && e != email ==> s.table[e] == t[e])
      && (email in t ==>
            && s.table[email].isActive == t[email].isActive
            && s.table[email].unsubscribeToken == t[email].unsubscribeToken)
  {
  }

  /** A code requested at `now` verifies until its expiry instant inclusive. */
  lemma FreshCodeVerifies(t: Table, email: string, rand: nat, now: int, newToken: string, at: int)
    requires ValidTable(t) && rand < CodeSpan
    requires !HeldByOther(t, email, FinalToken(t, email, newToken))
    requires at <= CodeExpiry(now)
    ensures var s := RequestStep(t, email, NewCode(rand), CodeExpiry(now), newToken, false);
      VerifyStep(s.table, email, NewCode(rand), at).reply.Success?
  {
  }

  // ---------------------------------------------------------- unsubscribe

  /** `if (!token)`: a missing query parameter or an empty one. */
  predicate Blank(token: Option<string>) {
    token.None? || token.value == ""
  }

  predicate HasHolder(t: Table, token: string) {
    exists e :: e in t && t[e].unsubscribeToken == Some(token)
  }

  /** The page the handler answers with, by its heading. */
  const UnsubscribedPage: string := "구독이 취소되었습니다"

  /** `unsubscribe`: a blank or unknown token is refused; otherwise the row
      holding it is deactivated. */
  function UnsubscribeStep(t: Table, token: Option<string>): (s: Step)
    ensures Blank(token) || !HasHolder(t, token.value) <==> s == Step(t, Failure(InvalidToken))
    ensures s.reply.Success? ==> s.reply.value == UnsubscribedPage
    ensures s.table.Keys == t.Keys
  {
    if Blank(token) || !HasHolder(t, token.value) then Step(t, Failure(InvalidToken))
    else
      var u := map e | e in t :: if t[e].unsubscribeToken == token then t[e].(isActive := false) else t[e];
      var h :| h in t && t[h].unsubscribeToken == token;
      assert u[h] != t[h] || !t[h].isActive;
      Step(u, Success(UnsubscribedPage))
  }

  /** Unsubscribing deactivates the holder of the token and changes nothing
      else, and keeps the table valid. */
  lemma UnsubscribeOnlyHolder(t: Table, token: string, holder: string)
    requires ValidTable(t)
    requires token != "" && holder in t && t[holder].unsubscribeToken == Some(token)
    ensures var s := UnsubscribeStep(t, Some(token));
      && s.reply.Success?
      && ValidTable(s.table)
      && s.table[holder] == t[holder].(isActive := false)
      && (forall e :: e in t && e != holder ==> s.table[e] == t[e])
  {
  }

  /** A deactivated subscriber gets no further weekly report. */
  lemma UnsubscribedIsNoRecipient(t: Table, token: string, holder: string)
    requires ValidTable(t)
    requires token != "" && holder in t && t[holder].unsubscribeToken == Some(token)
    ensures !Scheduler.IsRecipient(UnsubscribeStep(t, Some(token)).table[holder])
  {
    UnsubscribeOnlyHolder(t, token, holder);
  }

  // ---------------------------------------------------------- the store

  /** The subscriber table as the handlers see it. */
  class SubscriberStore {
    var rows: Table

    ghost predicate Valid()
      reads this
    {
      ValidTable(rows)
    }

    constructor()
      ensures Valid() && rows == map[]
    {
      rows := map[];
    }

    /** `POST /subscribers`. */
    method RequestVerification(email: string, rand: nat, now: int, newToken: string, mailFails: bool)
      returns (reply: Result<string, Rejection>)
      requires Valid() && rand < CodeSpan
      modifies this
      ensures Valid()
      ensures Step(rows, reply) == RequestStep(old(rows), email, NewCode(rand), CodeExpiry(now), newToken, mailFails)
    {
      var code := NewCode(rand);
      var expiresAt := CodeExpiry(now);
      RequestUpsertsByEmail(rows, email, code, expiresAt, newToken, mailFails);
      var existing: Option<string> := if email in rows then rows[email].unsubscribeToken else None;
      var token := if existing.Some? && existing.value != "" then existing.value else newToken;
      if HeldByOther(rows, email, token) {
        return Failure(StoreConflict);
      }
      rows := rows[email := Upserted(rows, email, code, expiresAt, token)];
      if mailFails {
        return Failure(MailFailed);
      }
      return Success("Verification code sent");
    }

    /** `POST /subscribers/verify`. */
    method VerifyCode(email: string, code: string, now: int) returns (reply: Result<string, Rejection>)
      requires Valid()
      modifies this
      ensures Valid()
      ensures Step(rows, reply) == VerifyStep(old(rows), email, code, now)
    {
      VerifyKeepsOthers(rows, email, code, now);
      if email !in rows {
        return Failure(UnknownEmail);
      }
      var subscriber := rows[email];
      if subscriber.codeExpiresAt.Some? && subscriber.codeExpiresAt.value < now {
        return Failure(CodeExpired);
      }
      if subscriber.verificationCode != Some(code) {
        return Failure(CodeMismatch);
      }
      rows := rows[email := subscriber.(isVerified := true, verificationCode := None, codeExpiresAt := None)];
      return Success("Subscription verified");
    }

    /** `GET /subscribers/unsubscribe?token=...`. */
    method Unsubscribe(token: Option<string>) returns (reply: Result<string, Rejection>)
      requires Valid()
      modifies this
      ensures Valid()
      ensures Step(rows, reply) == UnsubscribeStep(old(rows), token)
    {
      if Blank(token) || !HasHolder(rows, token.value) {
        return Failure(InvalidToken);
      }
      var holder :| holder in rows && rows[holder].unsubscribeToken == token;
      UnsubscribeOnlyHolder(rows, token.value, holder);
      rows := rows[holder := rows[holder].(isActive := false)];
      return Success(UnsubscribedPage);
    }

    /** `POST /subscribers/test-report`: refused in production, where no
        report goes out; elsewhere the weekly report runs over `listing`,
        the rows in the order the database returns them. */
    method TriggerTestReport(nodeEnv: Option<string>, ipos: seq<Ipo>, listing: seq<Subscriber>,
                             today: int, apiUrlEnv: Option<string>, failing: set<string>)
      returns (reply: Result<string, Rejection>, run: Option<Scheduler.WeeklyRun>)
      requires forall x :: x in listing <==> x in rows.Values
      requires |listing| == |rows|
      ensures nodeEnv == Some("production") <==> reply == Failure(NotInProduction)
      ensures nodeEnv == Some("production") ==> run.None?
      ensures nodeEnv != Some("production") ==> reply == Success("Weekly report triggered") && run.Some?
      ensures run.Some? ==> Scheduler.WeeklyOutcome(run.value, ipos, listing, today, apiUrlEnv, failing)
    {
      if nodeEnv == Some("production") {
        return Failure(NotInProduction), None;
      }
      var r := Scheduler.SendWeeklyReport(ipos, listing, today, apiUrlEnv, failing);
      return Success("Weekly report triggered"), Some(r);
    }
  }

  /** What the client sees for each refusal of the verification step: a 400
      carrying the handler's message. */
  lemma VerifyRefusalsAreBadRequests(t: Table, email: string, code: string, now: int, url: string, iso: string)
    requires VerifyStep(t, email, code, now).reply.Failure?
    ensures ExceptionsFilter.Catch(VerifyStep(t, email, code, now).reply.error.Thrown(), url, iso).status == 400
  {
  }
}
