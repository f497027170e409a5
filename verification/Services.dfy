/** The services as code: each call runs its statements one by one on the
    shared state, other calls act between them, and every statement is a step
    of the corresponding protocol, so the protocols' promises hold of the code. */
module SessionCode {
  import opened Sql
  import opened Schema
  import opened Sessions

  datatype Answer = Invalid | AlreadyRevoked | Expired | Failed | Issued

  class SessionService {
    var s: State
    ghost var history: seq<Step>
    /** Whether a transaction runner is configured. */
    const transactional: bool

    ghost predicate Valid()
      reads this
    {
      s == Run(history)
    }

    constructor (transactional: bool)
      ensures Valid() && this.transactional == transactional
    {
      this.s, this.history, this.transactional := INITIAL, [], transactional;
    }

    /** One statement, committed as one step. */
    ghost method Record(step: Step)
      requires s == Next(Run(history), step)
      modifies this`history
      ensures Valid() && history == old(history) + [step]
    {
      assert (history + [step])[..|history|] == history;
      history := history + [step];
    }

    /** Any steps of other calls. They leave this call's own stage alone, and a fresh id fresh. */
    method Others(c: CallId, id: TokenId)
      requires Valid()
      modifies this
      ensures Valid() && old(history) <= history
      ensures c in s.calls <==> c in old(s.calls)
      ensures c in s.calls ==> s.calls[c] == old(s).calls[c]
      ensures id !in old(s).births ==> id !in s.births
    {}

    /** SessionService.Refresh. Each pre-check answers for the row as read at the start; past them the call's own
        revoke, the step at `at`, decides: it is exchanged exactly if the row was still active then and the
        insert did not fail. A success means this call, and no other ever, exchanged the token. */
    method Refresh(c: CallId, k: TokenId, now: Time, id: TokenId, expiresAt: Time, insertFails: bool)
      returns (r: Answer, ghost at: nat)
      requires Valid() && c !in s.calls && id !in s.births
      modifies this
      ensures Valid() && c !in s.calls && old(history) <= history
      ensures r == Invalid <==> k !in old(s).tokens
      ensures r == Expired <==>
              k in old(s).tokens && old(s).tokens[k].revokedAt.None? && old(s).tokens[k].expiresAt <= now
      ensures k in old(s).tokens && old(s).tokens[k].revokedAt.Some? ==> r == AlreadyRevoked
      ensures !Usable(old(s), k, now) ==> s == old(s) && history == old(history)
      ensures Usable(old(s), k, now) ==>
                && |old(history)| < at < |history| && history[|old(history)|] == StartRefresh(c, k, now)
                && history[at] == RevokeStep(transactional, r, c, id, expiresAt)
                && (r == Issued <==> Usable(Run(history[..at]), k, now) && !insertFails)
                && (r == Failed <==> Usable(Run(history[..at]), k, now) && insertFails)
                && (r == AlreadyRevoked <==> !Usable(Run(history[..at]), k, now))
      ensures Usable(old(s), k, now) && at == |old(history)| + 1 && !insertFails ==> r == Issued
      ensures r == Issued ==> Exchanged(s, k, id, expiresAt)
    {
      hide Run;
      at := 0;
      if k !in s.tokens { return Invalid, at; }
      var row := s.tokens[k];
      if row.revokedAt.Some? { return AlreadyRevoked, at; }
      if row.expiresAt <= now { return Expired, at; }
      s := s.(calls := s.calls[c := Refreshing(k, now)]);
      Record(StartRefresh(c, k, now));
      ghost var started := history;
      assert Usable(Run(started), k, now);
      Others(c, id);
      at := |history|;
      ghost var before := history;
      if transactional {
        r := RotateInOneTx(c, k, now, id, expiresAt, insertFails);
      } else {
        r := RotateStepwise(c, k, now, id, expiresAt, insertFails);
      }
      assert history[..at] == before;
      assert at == |started| ==> before == started;
    }

    /** The revoke and the insert inside WithinTx. */
    method RotateInOneTx(c: CallId, k: TokenId, now: Time, id: TokenId, expiresAt: Time, insertFails: bool)
      returns (r: Answer)
      requires Valid() && c in s.calls && s.calls[c] == Refreshing(k, now) && id !in s.births
      modifies this
      ensures Valid() && c !in s.calls
      ensures old(history) < history && history[|old(history)|] == RevokeStep(true, r, c, id, expiresAt)
      ensures r == if !Usable(old(s), k, now) then AlreadyRevoked else if insertFails then Failed else Issued
      ensures r == Issued ==> Exchanged(s, k, id, expiresAt)
    {
      hide Run;
      if !Revocable(s, k, now) {
        s := s.(calls := s.calls - {c});
        Record(RotateInTx(c, id, expiresAt));
        return AlreadyRevoked;
      }
      if insertFails {
        s := s.(calls := s.calls - {c});
        Record(AbortTx(c));
        return Failed;
      }
      KnownToken(history, k);
      s := Issue(s.(tokens := Revoked(s.tokens, k, now)), c, k, s.tokens[k].user, id, expiresAt);
      Record(RotateInTx(c, id, expiresAt));
      hide Next;
      IssuedIsOnly(history, k, id);
      return Issued;
    }

    /** The revoke and the insert as two statements, with others in between. */
    method RotateStepwise(c: CallId, k: TokenId, now: Time, id: TokenId, expiresAt: Time, insertFails: bool)
      returns (r: Answer)
      requires Valid() && c in s.calls && s.calls[c] == Refreshing(k, now) && id !in s.births
      modifies this
      ensures Valid() && c !in s.calls
      ensures old(history) < history && history[|old(history)|] == RevokeStep(false, r, c, id, expiresAt)
      ensures r == if !Usable(old(s), k, now) then AlreadyRevoked else if insertFails then Failed else Issued
      ensures r == Issued ==> Exchanged(s, k, id, expiresAt)
    {
      hide Run;
      if !Revocable(s, k, now) {
        s := s.(calls := s.calls - {c});
        Record(RevokeFirst(c));
        return AlreadyRevoked;
      }
      var user := s.tokens[k].user;
      s := s.(tokens := Revoked(s.tokens, k, now), calls := s.calls[c := Rotated(k, user)],
              revokedFirst := s.revokedFirst + {k});
      Record(RevokeFirst(c));
      Others(c, id);
      if insertFails {
        s := s.(calls := s.calls - {c});
        Record(FailInsert(c));
        return Failed;
      }
      KnownCall(history, c);
      s := Issue(s, c, k, user, id, expiresAt);
      Record(InsertNext(c, id, expiresAt));
      hide Next;
      IssuedIsOnly(history, k, id);
      return Issued;
    }

    /** SessionService.Revoke: logging out an unknown or revoked token is a no-op. */
    method Revoke(c: CallId, k: TokenId, now: Time)
      requires Valid() && c !in s.calls
      modifies this
      ensures Valid() && c !in s.calls && Spent(s.tokens, k)
      ensures Spent(old(s).tokens, k) ==> s == old(s) && history == old(history)
      ensures !Spent(old(s).tokens, k) ==>
              old(history) < history && history[|history| - 1] == FinishLogout(c, now) && k in s.loggedOut
    {
      hide Run;
      if k !in s.tokens || s.tokens[k].revokedAt.Some? { return; }
      s := s.(calls := s.calls[c := LoggingOut(k)]);
      Record(StartLogout(c, k));
      Others(c, k);
      s := s.(tokens := Revoked(s.tokens, k, now), calls := s.calls - {c}, loggedOut := s.loggedOut + {k});
      Record(FinishLogout(c, now));
    }
  }

  /** Stored, not revoked and not expired. */
  predicate Usable(s: State, k: TokenId, now: Time) {
    k in s.tokens && s.tokens[k].revokedAt.None? && now < s.tokens[k].expiresAt
  }

  /** The call's conditional revoke: with the transaction around it, which a failed insert rolls back, or alone. */
  function RevokeStep(transactional: bool, r: Answer, c: CallId, id: TokenId, expiresAt: Time): Step {
    if !transactional then RevokeFirst(c) else if r == Failed then AbortTx(c) else RotateInTx(c, id, expiresAt)
  }

  /** The token was exchanged for exactly this one, of the same account, and is spent. */
  ghost predicate Exchanged(s: State, k: TokenId, id: TokenId, expiresAt: Time) {
    && k in s.births && s.births[k].successors == [id] && Spent(s.tokens, k)
    && id in s.tokens && s.tokens[id] == RefreshToken(s.births[k].user, expiresAt, None)
  }

  lemma KnownToken(h: seq<Step>, k: TokenId)
    requires k in Run(h).tokens
    ensures k in Run(h).births && Run(h).births[k].user == Run(h).tokens[k].user
  {
    Reachable(h);
    hide Run;
  }

  lemma KnownCall(h: seq<Step>, c: CallId)
    requires c in Run(h).calls && Run(h).calls[c].Rotated?
    ensures var k := Run(h).calls[c].token; k in Run(h).births && Run(h).births[k].user == Run(h).calls[c].user
  {
    Reachable(h);
    hide Run;
  }

  lemma IssuedIsOnly(h: seq<Step>, k: TokenId, id: TokenId)
    requires k in Run(h).births && id in Run(h).births[k].successors
    ensures Run(h).births[k].successors == [id] && Spent(Run(h).tokens, k)
  {
    OneSuccessorEach(h, k);
  }
}

module OtpService {
  import opened Collections
  import opened Sql
  import opened Schema
  import opened Otp

  datatype Answer = NotRequested | AlreadyConsumed | Expired | TooManyAttempts | Mismatch | Failed | Verified

  class AuthService {
    var s: State
    ghost var history: seq<Step>
    const transactional: bool

    ghost predicate Valid()
      reads this
    {
      s == Run(history)
    }

    constructor (transactional: bool)
      ensures Valid() && this.transactional == transactional
    {
      this.s, this.history, this.transactional := INITIAL, [], transactional;
    }

    ghost method Record(step: Step)
      requires s == Next(Run(history), step)
      modifies this`history
      ensures Valid() && history == old(history) + [step]
    {
      hide Next;
      assert (history + [step])[..|history|] == history;
      history := history + [step];
    }

    /** Any steps of other calls; they leave this call's own stage alone. */
    method Others(c: CallId)
      requires Valid()
      modifies this
      ensures Valid() && old(history) <= history
      ensures c in s.calls <==> c in old(s.calls)
      ensures c in s.calls ==> s.calls[c] == old(s).calls[c]
    {}

    /** GetLatestOtpCode: a scan for the phone's most recently created code. */
    method GetLatestOtpCode(phone: string) returns (latest: Option<OtpId>)
      ensures latest.Some? ==> latest.value in s.codes && s.codes[latest.value].phone == phone
      ensures latest.Some? ==> forall o :: o in s.codes && s.codes[o].phone == phone ==>
                                 s.codes[o].createdAt <= s.codes[latest.value].createdAt
      ensures latest.None? ==> forall o :: o in s.codes ==> s.codes[o].phone != phone
    {
      latest := None;
      var rest := s.codes.Keys;
      while rest != {}
        invariant rest <= s.codes.Keys
        invariant latest.Some? ==> latest.value in s.codes && s.codes[latest.value].phone == phone
        invariant forall o :: o in s.codes && o !in rest && s.codes[o].phone == phone ==>
                    latest.Some? && s.codes[o].createdAt <= s.codes[latest.value].createdAt
        decreases |rest|
      {
        ghost var some := Member(rest);
        var o :| o in rest;
        rest := rest - {o};
        if s.codes[o].phone == phone && (latest.None? || s.codes[o].createdAt > s.codes[latest.value].createdAt) {
          latest := Some(o);
        }
      }
    }

    /** The compare-and-set of ConsumeOtpCodeIfValid; `latest` is what its subquery returned. */
    method Consume(id: OtpId, phone: string, hash: string, now: Time) returns (ok: bool, latest: OtpId)
      ensures ok <==>
                latest == id && Usable(s.codes, id, now) && s.codes[id].codeHash == hash && s.codes[id].phone == phone
      ensures Newest(s.codes, phone, latest) || (latest == id && NoCode(s.codes, phone))
    {
      var found := GetLatestOtpCode(phone);
      latest := if found.Some? then found.value else id;
      ok := found == Some(id) && s.codes[id].codeHash == hash && Open(s.codes[id], now);
    }

    /** AuthService.VerifyOTP after parsing. Each pre-check answers for the newest code as read at the start; past
        them the call's own compare-and-set, the step at `at`, decides: the code is consumed exactly if it is still
        usable and what the subquery of that moment returns. A success issued the code's only session. */
    method VerifyOtp(c: CallId, phone: string, hash: string, now: Time, session: SessionId, laterFails: bool)
      returns (r: Answer, code: OtpId, ghost at: nat, ghost latest: OtpId)
      requires Valid() && c !in s.calls
      modifies this
      ensures Valid() && c !in s.calls && old(history) <= history
      ensures r == NotRequested <==> NoCode(old(s).codes, phone)
      ensures r != NotRequested ==>
                && Newest(old(s).codes, phone, code)
                && var row := old(s).codes[code];
                && (row.consumedAt.Some? ==> r == AlreadyConsumed)
                && (r == Expired <==> row.consumedAt.None? && row.expiresAt <= now)
                && (r == TooManyAttempts <==>
                      row.consumedAt.None? && now < row.expiresAt && row.maxAttempts <= row.attempts)
                && (r == Mismatch <==> Usable(old(s).codes, code, now) && row.codeHash != hash)
                && (!Usable(old(s).codes, code, now) ==> s == old(s) && history == old(history))
                && (r == Mismatch ==> old(history) < history && history[|history| - 1] == CountMiss(c))
                && (Usable(old(s).codes, code, now) && row.codeHash == hash ==>
                      Decided(old(history), history, at, latest, c, code, phone, hash, now, session, laterFails, r))
      ensures r == Verified ==> code in s.issued && s.issued[code] == [session] && code in s.consumed
    {
      hide Run, Next, IsLatest, Decided;
      code, at, latest := 0, 0, 0;
      var found := GetLatestOtpCode(phone);
      if found.None? { return NotRequested, code, at, latest; }
      code := found.value;
      NewestIsLatest(s.codes, phone, code);
      var row := s.codes[code];
      if row.consumedAt.Some? { return AlreadyConsumed, code, at, latest; }
      if row.expiresAt <= now { return Expired, code, at, latest; }
      if row.attempts >= row.maxAttempts { return TooManyAttempts, code, at, latest; }
      if row.codeHash != hash {
        CountWrongGuess(c, phone, hash, now, code);
        return Mismatch, code, at, latest;
      }
      StartsChecked(s, c, phone, hash, now, code);
      s := s.(calls := s.calls[c := Checked(code, phone, hash, now)]);
      Record(StartVerify(c, phone, hash, now, code));
      Others(c);
      at := |history|;
      ghost var before := history;
      if transactional { r, latest := FinishInOneTx(c, code, phone, hash, now, session, laterFails); }
      else { r, latest := FinishStepwise(c, code, phone, hash, now, session, laterFails); }
      assert history[..at] == before;
      DecidedHolds(old(history), before, history, latest, c, code, phone, hash, now, session, laterFails, r);
    }

    method CountWrongGuess(c: CallId, phone: string, hash: string, now: Time, code: OtpId)
      requires Valid() && c !in s.calls && IsLatest(s.codes, phone, code) && Open(s.codes[code], now)
               && s.codes[code].codeHash != hash
      modifies this
      ensures Valid() && c !in s.calls && old(history) < history && history[|history| - 1] == CountMiss(c)
    {
      hide Run;
      s := s.(calls := s.calls[c := Missed(code)]);
      Record(StartVerify(c, phone, hash, now, code));
      Others(c);
      s := s.(calls := s.calls - {c}, codes := if code in s.codes then CountedMiss(s.codes, code) else s.codes);
      Record(CountMiss(c));
    }

    /** Consume, account, link and session inside WithinTx. */
    method FinishInOneTx(c: CallId, code: OtpId, phone: string, hash: string, now: Time, session: SessionId,
                         laterFails: bool) returns (r: Answer, latest: OtpId)
      requires Valid() && c in s.calls && s.calls[c] == Checked(code, phone, hash, now)
      modifies this
      ensures Valid() && c !in s.calls
      ensures history == old(history) + [if r == Failed then AbortTx(c) else ConsumeInTx(c, latest, session)]
      ensures r == Outcome(old(s).codes, code, phone, hash, now, latest, laterFails)
      ensures Newest(old(s).codes, phone, latest) || (latest == code && NoCode(old(s).codes, phone))
      ensures r == Verified ==> code in s.issued && s.issued[code] == [session] && code in s.consumed
    {
      hide Run, IsLatest;
      var ok: bool;
      ok, latest := Consume(code, phone, hash, now);
      ConsumesIff(s, c, latest);
      if ok && laterFails {
        s := s.(calls := s.calls - {c});
        Record(AbortTx(c));
        return Failed, latest;
      }
      if !ok {
        s := s.(calls := s.calls - {c});
        Record(ConsumeInTx(c, latest, session));
        return AlreadyConsumed, latest;
      }
      OpenHasNoSession(history, code);
      s := s.(codes := Spend(s.codes, code, now), calls := s.calls - {c}, issued := Log(s.issued, code, session),
              consumed := s.consumed + {code});
      Record(ConsumeInTx(c, code, session));
      return Verified, latest;
    }

    /** The same without a transaction runner: consume first, then issue. */
    method FinishStepwise(c: CallId, code: OtpId, phone: string, hash: string, now: Time, session: SessionId,
                          laterFails: bool) returns (r: Answer, latest: OtpId)
      requires Valid() && c in s.calls && s.calls[c] == Checked(code, phone, hash, now)
      modifies this
      ensures Valid() && c !in s.calls
      ensures old(history) < history && history[|old(history)|] == ConsumeFirst(c, latest)
      ensures r == Outcome(old(s).codes, code, phone, hash, now, latest, laterFails)
      ensures Newest(old(s).codes, phone, latest) || (latest == code && NoCode(old(s).codes, phone))
      ensures r == Verified ==> code in s.issued && s.issued[code] == [session] && code in s.consumed
    {
      hide Run, IsLatest;
      var ok: bool;
      ok, latest := Consume(code, phone, hash, now);
      ConsumesIff(s, c, latest);
      if !ok {
        s := s.(calls := s.calls - {c});
        Record(ConsumeFirst(c, latest));
        return AlreadyConsumed, latest;
      }
      s := s.(codes := Spend(s.codes, code, now), calls := s.calls[c := Consumed(code)],
              consumed := s.consumed + {code});
      Record(ConsumeFirst(c, code));
      Others(c);
      if laterFails {
        s := s.(calls := s.calls - {c});
        Record(FailIssue(c));
        return Failed, latest;
      }
      HeldHasNoSession(history, c);
      s := s.(calls := s.calls - {c}, issued := Log(s.issued, code, session));
      Record(IssueSession(c, session));
      return Verified, latest;
    }
  }

  ghost predicate NoCode(codes: map<OtpId, OtpCode>, phone: string) {
    forall o :: o in codes ==> codes[o].phone != phone
  }

  /** A code of the phone, none created later. */
  ghost predicate Newest(codes: map<OtpId, OtpCode>, phone: string, id: OtpId) {
    && id in codes && codes[id].phone == phone
    && forall o :: o in codes && codes[o].phone == phone ==> codes[o].createdAt <= codes[id].createdAt
  }

  /** No other code of the phone was created as late. */
  ghost predicate OnlyNewest(codes: map<OtpId, OtpCode>, phone: string, id: OtpId) {
    && id in codes
    && forall o :: o in codes && codes[o].phone == phone && o != id ==> codes[o].createdAt < codes[id].createdAt
  }

  /** Stored, not consumed, not expired and with attempts left. */
  predicate Usable(codes: map<OtpId, OtpCode>, id: OtpId, now: Time) {
    && id in codes && codes[id].consumedAt.None? && now < codes[id].expiresAt
    && codes[id].attempts < codes[id].maxAttempts
  }

  /** The answer after the compare-and-set on these codes, its subquery having returned `latest`. */
  function Outcome(codes: map<OtpId, OtpCode>, code: OtpId, phone: string, hash: string, now: Time, latest: OtpId,
                   laterFails: bool): Answer
  {
    if !(latest == code && Usable(codes, code, now) && codes[code].codeHash == hash && codes[code].phone == phone)
    then AlreadyConsumed
    else if laterFails then Failed else Verified
  }

  /** The call started, and its compare-and-set at `at`, on the codes of that moment, gave the answer; if nobody
      came in between and no other code of the phone is as new, the code is consumed. */
  ghost predicate Decided(before: seq<Step>, after: seq<Step>, at: nat, latest: OtpId, c: CallId, code: OtpId,
                          phone: string, hash: string, now: Time, session: SessionId, laterFails: bool, r: Answer)
  {
    && |before| < at < |after| && before == after[..|before|]
    && after[|before|] == StartVerify(c, phone, hash, now, code)
    && (after[at] == ConsumeInTx(c, latest, session) || after[at] == ConsumeFirst(c, latest)
        || (after[at] == AbortTx(c) && r == Failed))
    && var codes := Run(after[..at]).codes;
    && (Newest(codes, phone, latest) || (latest == code && NoCode(codes, phone)))
    && r == Outcome(codes, code, phone, hash, now, latest, laterFails)
    && (at == |before| + 1 && !laterFails && OnlyNewest(Run(before).codes, phone, code) ==> r == Verified)
  }

  lemma DecidedHolds(before: seq<Step>, mid: seq<Step>, after: seq<Step>, latest: OtpId, c: CallId, code: OtpId,
                     phone: string, hash: string, now: Time, session: SessionId, laterFails: bool, r: Answer)
    requires before + [StartVerify(c, phone, hash, now, code)] <= mid < after
    requires after[|mid|] == ConsumeInTx(c, latest, session) || after[|mid|] == ConsumeFirst(c, latest)
             || (after[|mid|] == AbortTx(c) && r == Failed)
    requires Newest(Run(mid).codes, phone, latest) || (latest == code && NoCode(Run(mid).codes, phone))
    requires r == Outcome(Run(mid).codes, code, phone, hash, now, latest, laterFails)
    requires Newest(Run(before).codes, phone, code) && Usable(Run(before).codes, code, now)
    requires Run(before).codes[code].codeHash == hash
    ensures Decided(before, after, |mid|, latest, c, code, phone, hash, now, session, laterFails, r)
  {
    assert after[..|mid|] == mid;
    assert mid[..|before|] == before;
    var started := before + [StartVerify(c, phone, hash, now, code)];
    assert started[..|before|] == before;
    if |mid| == |before| + 1 { assert mid == started; }
    hide IsLatest;
    assert Run(started).codes == Run(before).codes;
    hide Run;
  }

  lemma NewestIsLatest(codes: map<OtpId, OtpCode>, phone: string, id: OtpId)
    ensures IsLatest(codes, phone, id) <==> Newest(codes, phone, id)
  {}

  lemma ConsumesIff(s: State, c: CallId, latest: OtpId)
    requires c in s.calls && s.calls[c].Checked?
    requires var call := s.calls[c]; Newest(s.codes, call.phone, latest) || NoCode(s.codes, call.phone)
    ensures var call := s.calls[c];
            Consumes(s, c, latest) <==>
            && latest == call.code && Usable(s.codes, call.code, call.now) && s.codes[call.code].codeHash == call.hash
            && s.codes[call.code].phone == call.phone
  {}

  lemma StartsChecked(s: State, c: CallId, phone: string, hash: string, now: Time, id: OtpId)
    requires c !in s.calls && IsLatest(s.codes, phone, id) && Open(s.codes[id], now) && s.codes[id].codeHash == hash
    ensures Next(s, StartVerify(c, phone, hash, now, id)) == s.(calls := s.calls[c := Checked(id, phone, hash, now)])
  {}

  lemma OpenHasNoSession(h: seq<Step>, id: OtpId)
    requires id in Run(h).codes && Run(h).codes[id].consumedAt.None?
    ensures id in Run(h).issued && Run(h).issued[id] == []
  {
    Reachable(h);
    hide Run;
  }

  lemma HeldHasNoSession(h: seq<Step>, c: CallId)
    requires c in Run(h).calls && Run(h).calls[c].Consumed?
    ensures var id := Run(h).calls[c].code; id in Run(h).issued && Run(h).issued[id] == [] && id in Run(h).consumed
  {
    Reachable(h);
    hide Run;
  }
}

module UploadService {
  import opened Sql
  import opened Schema
  import opened Uploads
  import opened Collections

  /** What may go wrong in one call, and the fresh names it draws. */
  datatype Draw = Draw(blob: ObjectKey, media: MediaId, cat: CatId, rejected: bool, insertFails: bool,
                       commitLost: bool, lookupFails: bool, cleanupFails: bool)

  /** MediaService.Upload and CatsService.Create: the same object/row choreography. */
  class Uploader {
    var s: State
    ghost var history: seq<Step>

    ghost predicate Valid()
      reads this
    {
      s == Run(history)
    }

    constructor ()
      ensures Valid()
    {
      s, history := INITIAL, [];
    }

    ghost method Record(step: Step)
      requires s == Next(Run(history), step)
      modifies this`history
      ensures Valid() && history == old(history) + [step]
    {
      hide Next;
      assert (history + [step])[..|history|] == history;
      history := history + [step];
    }

    /** Any steps of other calls: this call's stage stays, rows stay, fresh names stay fresh. */
    method Others(c: CallId, d: Draw)
      requires Valid()
      modifies this
      ensures Valid() && old(history) <= history
      ensures c in old(s.requests) ==> c in s.requests && s.requests[c] == old(s).requests[c]
      ensures c in s.stages <==> c in old(s.stages)
      ensures c in s.stages ==> s.stages[c] == old(s).stages[c]
      ensures forall r: Call, id :: Answers(old(s), r, id) ==> Answers(s, r, id)
      ensures FreshKey(old(s), d.blob) ==> FreshKey(s, d.blob)
      ensures d.media !in old(s.media) && d.cat !in old(s.cats) ==> d.media !in s.media && d.cat !in s.cats
    {}

    /** GetMediaByIdempotencyKey / GetCatByIdempotencyKey. */
    method FindByKey(r: Call) returns (found: Option<int>)
      ensures LookupReturns(s, r, found)
    {
      if r.key.None? { return None; }
      var rest := if r.kind == MediaUpload then s.media.Keys else s.cats.Keys;
      while rest != {}
        invariant rest <= if r.kind == MediaUpload then s.media.Keys else s.cats.Keys
        invariant forall id :: Answers(s, r, id) ==> id in rest
        decreases |rest|
      {
        ghost var some := Member(rest);
        var id :| id in rest;
        if Answers(s, r, id) { return Some(id); }
        rest := rest - {id};
      }
      return None;
    }

    /** One whole request. An earlier row of its key answers it. Else, unless it is rejected, the insert at `at`
        decides: a row that came first is returned if it can be looked up, and otherwise the new row, unless the
        insert failed or seemed to. The object goes unless the new row was returned. */
    method Handle(c: CallId, r: Call, d: Draw) returns (o: Outcome, ghost at: nat)
      requires Valid() && c !in s.requests && c !in s.stages
      requires FreshKey(s, d.blob) && d.media !in s.media && d.cat !in s.cats
      modifies this
      ensures Valid() && c !in s.stages
      ensures o.Row? ==> Answers(s, r, o.id)
      ensures old(history) < history
      ensures Conflicts(old(s), r) ==>
                o.Row? && Answers(old(s), r, o.id) && history == old(history) + [Begin(c, r, Some(o.id))]
      ensures !Conflicts(old(s), r) ==> history[|old(history)|] == Begin(c, r, None)
      ensures !Conflicts(old(s), r) && d.rejected ==> o == Failed && history[|history| - 1] == Reject(c)
      ensures !Conflicts(old(s), r) && !d.rejected ==>
                at < |history| && Inserted(Run(history[..at]), history[at], history[|history| - 1], c, r, d, o)
    {
      hide Run, Next, Answers, LookupReturns, Conflicts, Inserted;
      at := 0;
      var found := FindByKey(r);
      Begins(s, c, r, found);
      ConflictIff(s, r, found);
      if found.Some? {
        s := s.(requests := s.requests[c := r], results := s.results[c := Row(found.value)]);
        Record(Begin(c, r, found));
        return Row(found.value), at;
      }
      s := MoveTo(s.(requests := s.requests[c := r]), c, Looked);
      Record(Begin(c, r, None));
      Others(c, d);
      o, at := StoreObject(c, r, d);
    }

    method StoreObject(c: CallId, r: Call, d: Draw) returns (o: Outcome, ghost at: nat)
      requires Valid() && c in s.stages && s.stages[c] == Looked && c in s.requests && s.requests[c] == r
      requires FreshKey(s, d.blob) && d.media !in s.media && d.cat !in s.cats
      modifies this
      ensures Valid() && c !in s.stages && old(history) < history
      ensures o.Row? ==> Answers(s, r, o.id)
      ensures d.rejected ==> o == Failed && history[|history| - 1] == Reject(c)
      ensures !d.rejected ==>
                at < |history| && Inserted(Run(history[..at]), history[at], history[|history| - 1], c, r, d, o)
    {
      hide Run, Answers, LookupReturns, Conflicts, Inserted;
      at := 0;
      if d.rejected {
        s := EndCall(s, c, Failed);
        Record(Reject(c));
        return Failed, at;
      }
      s := MoveTo(s, c, Stored(d.blob)).(objects := s.objects[d.blob := ByCall(c)]);
      Record(Put(c, d.blob));
      hide Next;
      Others(c, d);
      at := |history|;
      ghost var before := history;
      o := InsertRow(c, r, d);
      assert history[..at] == before;
    }

    method InsertRow(c: CallId, r: Call, d: Draw) returns (o: Outcome)
      requires Valid() && c in s.stages && s.stages[c] == Stored(d.blob) && c in s.requests && s.requests[c] == r
      requires d.media !in s.media && d.cat !in s.cats
      modifies this
      ensures Valid() && c !in s.stages && old(history) < history
      ensures o.Row? ==> Answers(s, r, o.id)
      ensures Inserted(old(s), history[|old(history)|], history[|history| - 1], c, r, d, o)
    {
      hide Run, Answers, LookupReturns, Conflicts;
      if d.insertFails {
        s := MoveTo(s, c, Cleaning(d.blob, Failed));
        Record(FailInsert(c));
        hide Next;
        Clean(c, r, d, Failed);
        return Failed;
      }
      var existing := FindByKey(r);
      ConflictIff(s, r, existing);
      if existing.None? { o := InsertNew(c, r, d); } else { o := LoseRace(c, r, d, existing.value); }
    }

    method InsertNew(c: CallId, r: Call, d: Draw) returns (o: Outcome)
      requires Valid() && c in s.stages && s.stages[c] == Stored(d.blob) && c in s.requests && s.requests[c] == r
      requires d.media !in s.media && d.cat !in s.cats && !d.insertFails && !Conflicts(s, r)
      modifies this
      ensures Valid() && c !in s.stages && old(history) < history
      ensures o.Row? ==> Answers(s, r, o.id)
      ensures Inserted(old(s), history[|old(history)|], history[|history| - 1], c, r, d, o)
    {
      hide Run, Answers, Conflicts;
      if d.commitLost {
        s := MoveTo(AddRows(s, c, d.blob, d.media, d.cat), c, Doubted(d.blob, d.media));
        Record(LoseInsert(c, d.media, d.cat));
        hide Next;
        CleanDoubted(c, d);
        return Failed;
      }
      s := InsertRows(s, c, d.blob, d.media, d.cat);
      Record(Insert(c, d.media, d.cat));
      InsertedAnswers(s, r, d);
      return if r.kind == MediaUpload then Row(d.media) else Row(d.cat);
    }

    method LoseRace(c: CallId, r: Call, d: Draw, ghost winner: int) returns (o: Outcome)
      requires Valid() && c in s.stages && s.stages[c] == Stored(d.blob) && c in s.requests && s.requests[c] == r
      requires d.media !in s.media && d.cat !in s.cats && !d.insertFails && LookupReturns(s, r, Some(winner))
      modifies this
      ensures Valid() && c !in s.stages && old(history) < history
      ensures o.Row? ==> Answers(s, r, o.id)
      ensures Inserted(old(s), history[|old(history)|], history[|history| - 1], c, r, d, o)
    {
      hide Run, Answers, LookupReturns, Conflicts;
      LookupAnswers(s, r, winner);
      ConflictIff(s, r, Some(winner));
      AnswersKept(s, MoveTo(s, c, Conflicted(d.blob)), r);
      s := MoveTo(s, c, Conflicted(d.blob));
      Record(Insert(c, d.media, d.cat));
      hide Next;
      Others(c, d);
      o := Recover(c, r, d, winner);
    }

    /** recoverFromCreateFailure after a conflict: return the row that won, delete this attempt's object. */
    method Recover(c: CallId, r: Call, d: Draw, ghost winner: int) returns (o: Outcome)
      requires Valid() && c in s.stages && s.stages[c] == Conflicted(d.blob) && c in s.requests && s.requests[c] == r
      requires r.key.Some? && Answers(s, r, winner)
      modifies this
      ensures Valid() && c !in s.stages && old(history) < history
      ensures o.Row? <==> !d.lookupFails
      ensures o.Row? ==> Answers(s, r, o.id)
      ensures history[|history| - 1] == if d.cleanupFails then FailCleanup(c) else Cleanup(c)
    {
      hide Run, RowOf, Conflicts;
      var found := FindByKey(r);
      if d.lookupFails { found := None; }
      o := if found.Some? then Row(found.value) else Failed;
      s := MoveTo(s, c, Cleaning(d.blob, o));
      Record(LookUp(c, found));
      hide Next;
      Clean(c, r, d, o);
    }

    /** The same after a commit that was reported as failed: the row stays, its object goes. */
    method CleanDoubted(c: CallId, d: Draw)
      requires Valid() && c in s.stages && s.stages[c] == Doubted(d.blob, d.media) && c in s.requests
      modifies this
      ensures Valid() && c !in s.stages && old(history) < history
      ensures history[|history| - 1] == if d.cleanupFails then FailCleanup(c) else Cleanup(c)
    {
      hide Run, LookupReturns, Conflicts;
      Others(c, d);
      if d.cleanupFails {
        s := EndCall(s, c, Failed);
        Record(FailCleanup(c));
      } else {
        s := EndCall(s, c, Failed).(objects := s.objects - {d.blob});
        Record(Cleanup(c));
      }
    }

    method Clean(c: CallId, r: Call, d: Draw, outcome: Outcome)
      requires Valid() && c in s.stages && s.stages[c] == Cleaning(d.blob, outcome) && c in s.requests
               && s.requests[c] == r
      requires outcome.Row? ==> Answers(s, r, outcome.id)
      modifies this
      ensures Valid() && c !in s.stages && old(history) < history
      ensures outcome.Row? ==> Answers(s, r, outcome.id)
      ensures history[|history| - 1] == if d.cleanupFails then FailCleanup(c) else Cleanup(c)
    {
      hide Run, LookupReturns, Conflicts;
      Others(c, d);
      if d.cleanupFails {
        s := EndCall(s, c, outcome).(objects := s.objects[d.blob := Leaked]);
        Record(FailCleanup(c));
      } else {
        s := EndCall(s, c, outcome).(objects := s.objects - {d.blob});
        Record(Cleanup(c));
      }
    }
  }

  /** The insert on this state, its step and the call's last one, and the answer. */
  ghost predicate Inserted(s: State, step: Step, last: Step, c: CallId, r: Call, d: Draw, o: Outcome) {
    var won := !d.insertFails && !Conflicts(s, r);
    && step == (if d.insertFails then FailInsert(c)
                else if won && d.commitLost then LoseInsert(c, d.media, d.cat)
                else Insert(c, d.media, d.cat))
    && (d.insertFails ==> o == Failed)
    && (!d.insertFails && Conflicts(s, r) ==> (o.Row? <==> !d.lookupFails))
    && (won ==> o == if d.commitLost then Failed else if r.kind == MediaUpload then Row(d.media) else Row(d.cat))
    && last == if won && !d.commitLost then step else if d.cleanupFails then FailCleanup(c) else Cleanup(c)
  }

  lemma AnswersKept(s: State, t: State, r: Call)
    requires t.media == s.media && t.cats == s.cats
    ensures forall id :: Answers(s, r, id) <==> Answers(t, r, id)
  {}

  lemma LookupAnswers(s: State, r: Call, id: int)
    ensures LookupReturns(s, r, Some(id)) ==> r.key.Some? && Answers(s, r, id)
  {}

  lemma Begins(s: State, c: CallId, r: Call, found: Option<int>)
    requires c !in s.requests && LookupReturns(s, r, found)
    ensures found.Some? ==>
              Next(s, Begin(c, r, found)) ==
              s.(requests := s.requests[c := r], results := s.results[c := Row(found.value)])
              && Answers(s, r, found.value)
    ensures found.None? ==> Next(s, Begin(c, r, None)) == MoveTo(s.(requests := s.requests[c := r]), c, Looked)
    ensures forall t: State, id :: t.media == s.media && t.cats == s.cats && Answers(s, r, id) ==> Answers(t, r, id)
  {}

  lemma ConflictIff(s: State, r: Call, found: Option<int>)
    requires LookupReturns(s, r, found)
    ensures found.Some? <==> Conflicts(s, r)
  {}

  lemma InsertedAnswers(s: State, r: Call, d: Draw)
    requires r.kind == MediaUpload ==>
               d.media in s.media && s.media[d.media].kind == r.kind && s.media[d.media].owner == r.owner
               && s.media[d.media].key == r.key
    requires r.kind == CatCreation ==> d.cat in s.cats && s.cats[d.cat].owner == r.owner && s.cats[d.cat].key == r.key
    ensures Answers(s, r, if r.kind == MediaUpload then d.media else d.cat)
  {}
}

module NotificationCode {
  import opened Sql
  import opened Schema
  import opened Dispatch
  import opened Collections
  import P = Pushes
  import R = Repeats

  /** One of the first n statements of the call is the one that fails. */
  predicate Broken(fault: Option<nat>, n: nat) { fault.Some? && fault.value < n }

  function Recorded(r: State): State { r.(past := r.past + [r.db]) }

  ghost predicate RowsHeld(s: State, w: WorkerId, rows: seq<OutboxId>) {
    forall i :: 0 <= i < |rows| ==> Held(s, w, rows[i])
  }

  /** The worker has an open batch on these rows, is on the n-th, and holds their locks. */
  ghost predicate Working(s: State, w: WorkerId, rows: seq<OutboxId>, n: nat) {
    w in s.workers && s.workers[w].rows == rows && s.workers[w].next == n <= |rows| && RowsHeld(s, w, rows)
  }

  function QueuedAt(s: State, o: OutboxId): Time { if o in s.db.outbox then s.db.outbox[o].queuedAt else 0 }

  /** Distinct claimable rows, oldest first and none older left out, fewer than the limit only if there are no more. */
  ghost predicate OldestFirst(s: State, rows: seq<OutboxId>, limit: nat) {
    && |rows| <= limit && (forall o :: o in rows ==> Claimable(s, o))
    && (forall i, j :: 0 <= i < j < |rows| ==> rows[i] != rows[j] && QueuedAt(s, rows[i]) <= QueuedAt(s, rows[j]))
    && (forall o, p :: o in rows && Claimable(s, p) && p !in rows ==> QueuedAt(s, o) <= QueuedAt(s, p))
    && (|rows| < limit ==> forall o :: Claimable(s, o) ==> o in rows)
  }

  class NotificationService {
    var s: State
    ghost var history: seq<Step>

    ghost predicate Valid()
      reads this
    {
      s == Run(history)
    }

    constructor ()
      ensures Valid()
    {
      s, history := INITIAL, [];
    }

    ghost method Record(step: Step)
      requires s == Next(Run(history), step)
      modifies this`history
      ensures Valid() && history == old(history) + [step]
    {
      hide Act;
      assert (history + [step])[..|history|] == history;
      history := history + [step];
    }

    /** Any steps of other workers and other writes: this worker's batch and its row locks stay. */
    method Others(w: WorkerId)
      requires Valid()
      modifies this
      ensures Valid() && old(history) <= history
      ensures w in s.workers <==> w in old(s.workers)
      ensures w in s.workers ==> s.workers[w] == old(s).workers[w]
      ensures forall o :: Held(old(s), w, o) ==> Held(s, w, o) && s.locks[o] == old(s).locks[o]
    {}

    /** The oldest claimable row of a set, in created_at order. */
    method OldestClaimable(among: set<OutboxId>) returns (oldest: Option<OutboxId>)
      requires among <= s.db.outbox.Keys
      ensures oldest.None? ==> forall o :: o in among ==> !Claimable(s, o)
      ensures oldest.Some? ==> oldest.value in among && Claimable(s, oldest.value)
      ensures oldest.Some? ==> forall o :: o in among && Claimable(s, o) ==> QueuedAt(s, oldest.value) <= QueuedAt(s, o)
    {
      hide Claimable;
      oldest := None;
      var rest := among;
      while rest != {}
        invariant rest <= among
        invariant oldest.None? ==> forall o :: o in among && o !in rest ==> !Claimable(s, o)
        invariant oldest.Some? ==> oldest.value in among && Claimable(s, oldest.value)
        invariant oldest.Some? ==> forall o :: o in among && o !in rest && Claimable(s, o) ==>
                                     QueuedAt(s, oldest.value) <= QueuedAt(s, o)
        decreases |rest|
      {
        ghost var some := Member(rest);
        var o :| o in rest;
        rest := rest - {o};
        if Claimable(s, o) && (oldest.None? || QueuedAt(s, o) < QueuedAt(s, oldest.value)) { oldest := Some(o); }
      }
    }

    /** ClaimNotificationOutboxBatch: the oldest claimable rows, in order, up to `limit`. */
    method ClaimBatch(limit: nat) returns (rows: seq<OutboxId>)
      ensures OldestFirst(s, rows, limit)
    {
      hide Claimable;
      rows := [];
      var rest := s.db.outbox.Keys;
      ClaimableRows(s);
      while |rows| < limit
        invariant |rows| <= limit && rest <= s.db.outbox.Keys
        invariant forall o :: o in rows ==> Claimable(s, o) && o !in rest
        invariant forall i, j :: 0 <= i < j < |rows| ==>
                    rows[i] != rows[j] && QueuedAt(s, rows[i]) <= QueuedAt(s, rows[j])
        invariant forall o, p :: o in rows && Claimable(s, p) && p in rest ==> QueuedAt(s, o) <= QueuedAt(s, p)
        invariant forall o :: Claimable(s, o) ==> o in rest || o in rows
        decreases limit - |rows|
      {
        var oldest := OldestClaimable(rest);
        if oldest.None? { return; }
        rest := rest - {oldest.value};
        rows := rows + [oldest.value];
      }
    }

    /** DispatchPending: claim, fan out, mark, commit. `fault` is the statement that fails, if any, and `ran` how many
        were run: the call succeeds exactly if none of them was that one, and otherwise rolls the batch back. On
        success the batch commits every claimed row as processed, and nobody else ever did. */
    method DispatchPending(w: WorkerId, limit: nat, now: Time, fault: Option<nat>)
      returns (rows: seq<OutboxId>, processed: nat, ok: bool, ran: nat)
      requires Valid() && w !in s.workers
      modifies this
      ensures Valid() && w !in s.workers
      ensures fault == Some(0) ==> !ok && history == old(history)
      ensures fault != Some(0) ==>
                && OldestFirst(old(s), rows, limit) && |history| >= |old(history)| + 2
                && old(history) + [Take(w, rows)] <= history
                && history[|history| - 1] == if ok then Commit(w, now) else Abort(w)
      ensures ok <==> !Broken(fault, ran)
      ensures ok ==> processed == |rows| && ran >= 2 + processed
      ensures ok ==> forall o :: o in rows ==> o in s.marks && |s.marks[o]| == 1
    {
      rows, processed, ok, ran := [], 0, false, 1;
      if Broken(fault, ran) { return; }
      hide Run, Next, OldestFirst;
      rows := OpenBatch(w, limit);
      ok, processed, ran := ServeRows(w, rows, now, fault, ran);
      ran := if ok then ran + 1 else ran;
      ok := !Broken(fault, ran);
      if ok {
        CommitRows(w, rows, now);
      } else {
        RollBack(w);
      }
    }

    /** The loop over the claimed rows, others acting before each. */
    method ServeRows(w: WorkerId, rows: seq<OutboxId>, now: Time, fault: Option<nat>, before: nat)
      returns (served: bool, processed: nat, ran: nat)
      requires Valid() && Working(s, w, rows, 0) && s.workers[w].resolvedAt.None? && !Broken(fault, before)
      modifies this
      ensures Valid() && old(history) <= history && w in s.workers
      ensures ran >= before + processed && (served <==> !Broken(fault, ran))
      ensures served ==> processed == |rows| && Working(s, w, rows, |rows|)
    {
      hide Run, Next, Broken;
      processed, ran := 0, before;
      while processed < |rows|
        invariant Valid() && processed <= |rows| && Working(s, w, rows, processed) && s.workers[w].resolvedAt.None?
        invariant old(history) <= history && !Broken(fault, ran) && ran >= before + processed
      {
        Others(w);
        served, ran := DispatchRow(w, rows, now, processed, fault, ran);
        if !served { return; }
        processed := processed + 1;
      }
      return true, processed, ran;
    }

    method OpenBatch(w: WorkerId, limit: nat) returns (rows: seq<OutboxId>)
      requires Valid() && w !in s.workers
      modifies this
      ensures Valid() && OldestFirst(old(s), rows, limit) && history == old(history) + [Take(w, rows)]
      ensures Working(s, w, rows, 0) && s.workers[w].resolvedAt.None?
    {
      hide Run, Act, Claimable;
      rows := ClaimBatch(limit);
      TakeActs(s, w, rows);
      s := Recorded(TakeRows(s, w, rows));
      Record(Take(w, rows));
    }

    method CommitRows(w: WorkerId, rows: seq<OutboxId>, now: Time)
      requires Valid() && Working(s, w, rows, |rows|)
      modifies this
      ensures Valid() && w !in s.workers && history == old(history) + [Commit(w, now)]
      ensures forall o :: o in rows ==> o in s.marks && |s.marks[o]| == 1
    {
      hide Run, Act;
      CommitActs(s, w, rows, now);
      s := Recorded(CommitBatch(s, w, now));
      Record(Commit(w, now));
      forall o | o in rows ensures |s.marks[o]| == 1 { ProcessedAtMostOnce(history, o); }
    }

    method RollBack(w: WorkerId)
      requires Valid() && w in s.workers
      modifies this
      ensures Valid() && w !in s.workers && history == old(history) + [Abort(w)]
    {
      hide Run, Act;
      AbortActs(s, w);
      s := Recorded(Released(s, w).(aborted := s.aborted + {s.workers[w].id}));
      Record(Abort(w));
    }

    /** One claimed row: dispatchNeedsHelp if it is a live eligible mark, then its processed mark. */
    method DispatchRow(w: WorkerId, rows: seq<OutboxId>, now: Time, n: nat, fault: Option<nat>, before: nat)
      returns (served: bool, ran: nat)
      requires Valid() && Working(s, w, rows, n) && n < |rows| && s.workers[w].resolvedAt.None?
      requires !Broken(fault, before)
      modifies this
      ensures Valid() && old(history) <= history
      ensures ran > before && (served <==> !Broken(fault, ran))
      ensures served ==> Working(s, w, rows, n + 1) && s.workers[w].resolvedAt.None?
      ensures !served ==> Working(s, w, rows, n)
    {
      hide Run, Act, Recipient, AlreadyNotified;
      ran := before;
      OnItsRow(s, w, rows, n);
      if FansOut(s.locks[rows[n]].claim) {
        ran := ran + 1;
        if Broken(fault, ran) { return false, ran; }
        ResolveActs(s, w);
        s := Recorded(ResolveRecipients(s, w));
        Record(Resolve(w));
        served, ran := Deliveries(w, rows, now, n, fault, ran);
        if !served { return; }
        OnItsRow(s, w, rows, n);
      }
      ran := ran + 1;
      if Broken(fault, ran) { return false, ran; }
      FinishActs(s, w);
      s := Recorded(s.(workers := s.workers[w := Finished(s, w)]));
      Record(Finish(w));
      return true, ran;
    }

    /** The loop over the recipients; a failed statement fails the batch, and no insert breaks a constraint. */
    method Deliveries(w: WorkerId, rows: seq<OutboxId>, now: Time, n: nat, fault: Option<nat>, before: nat)
      returns (served: bool, ran: nat)
      requires Valid() && Working(s, w, rows, n) && n < |rows| && s.workers[w].resolvedAt.Some?
      requires !Broken(fault, before)
      modifies this
      ensures Valid() && Working(s, w, rows, n) && old(history) <= history
      ensures s.locks[rows[n]] == old(s).locks[rows[n]]
      ensures ran >= before && (served <==> !Broken(fault, ran))
      ensures served ==> s.workers[w].resolvedAt.Some? && s.workers[w].todo == map[]
    {
      hide Run, Act, Recipient;
      ran := before;
      ghost var lock := s.locks[rows[n]];
      assert Held(s, w, rows[n]);
      while s.workers[w].todo.Keys != {}
        invariant Valid() && Working(s, w, rows, n) && s.workers[w].resolvedAt.Some?
        invariant rows[n] in s.locks && s.locks[rows[n]] == lock && old(history) <= history
        invariant ran >= before && !Broken(fault, ran)
        decreases |s.workers[w].todo.Keys|
      {
        ghost var left := |s.workers[w].todo.Keys|;
        assert Held(s, w, rows[n]);
        Others(w);
        OnItsRow(s, w, rows, n);
        ghost var some := Member(s.workers[w].todo.Keys);
        var d :| d in s.workers[w].todo.Keys;
        ran := ran + 1;
        if Broken(fault, ran) { return false, ran; }
        var id := FreshId(s.db.notifications.Keys + s.pending.Keys + s.evidence.Keys);
        RecipientStored(history, w, d);
        DeliverActs(s, w, d, id, now);
        s := Recorded(DeliverTo(s, w, d, id, now));
        Record(Deliver(w, d, id, now));
      }
      assert forall d :: d !in s.workers[w].todo;
      return true, ran;
    }

    /** A notification id not used yet. */
    method FreshId(used: set<NotificationId>) returns (id: NotificationId)
      ensures id !in used
    {
      id := 0;
      var rest := used;
      while rest != {}
        invariant rest <= used && forall x :: x in used && x !in rest ==> x < id
        decreases |rest|
      {
        ghost var some := Member(rest);
        var x :| x in rest;
        rest := rest - {x};
        if x >= id { id := x + 1; }
      }
      assert forall x :: x in used ==> x !in rest;
    }
  }

  /** What an insert for a recipient refers to is there: devices are never removed, and the claimed row's lock
      keeps its update and cat. */
  lemma RecipientStored(h: seq<Step>, w: WorkerId, d: DeviceId)
    requires OnRow(Run(h), w) && Run(h).workers[w].resolvedAt.Some? && d in Run(h).workers[w].todo
    ensures var s := Run(h);
            var c := s.locks[Row(s, w)].claim;
            d in s.db.devices && c.cat in s.db.cats && c.update in s.db.updates
  {
    hide Run, Inv;
    Reachable(h);
    P.TodoKnown(h, w, d);
    R.RowFacts(Run(h), w);
  }

  lemma ClaimableRows(s: State)
    ensures forall o :: Claimable(s, o) ==> o in s.db.outbox
  {}

  lemma TakeActs(s: State, w: WorkerId, rows: seq<OutboxId>)
    requires w !in s.workers && forall o :: o in rows ==> Claimable(s, o)
    ensures Next(s, Take(w, rows)) == Recorded(TakeRows(s, w, rows))
    ensures Working(Recorded(TakeRows(s, w, rows)), w, rows, 0)
            && Recorded(TakeRows(s, w, rows)).workers[w].resolvedAt.None?
  {}

  lemma OnItsRow(s: State, w: WorkerId, rows: seq<OutboxId>, n: nat)
    requires Working(s, w, rows, n) && n < |rows|
    ensures OnRow(s, w) && Row(s, w) == rows[n] && Held(s, w, rows[n])
  {}

  lemma ResolveActs(s: State, w: WorkerId)
    requires OnRow(s, w) && FansOut(s.locks[Row(s, w)].claim) && s.workers[w].resolvedAt.None?
    ensures Next(s, Resolve(w)) == Recorded(ResolveRecipients(s, w))
  {
    hide Recipient;
  }

  lemma DeliverActs(s: State, w: WorkerId, d: DeviceId, id: NotificationId, now: Time)
    requires OnRow(s, w) && s.workers[w].resolvedAt.Some? && d in s.workers[w].todo
    requires id !in s.db.notifications && id !in s.pending && id !in s.evidence
    requires var c := s.locks[Row(s, w)].claim;
             AlreadyNotified(s, w, d, c.update) || (d in s.db.devices && c.cat in s.db.cats && c.update in s.db.updates)
    ensures var r := Recorded(DeliverTo(s, w, d, id, now));
            && Next(s, Deliver(w, d, id, now)) == r
            && r.workers == s.workers[w := s.workers[w].(todo := s.workers[w].todo - {d})] && r.locks == s.locks
            && r.workers[w].todo.Keys == s.workers[w].todo.Keys - {d}
  {
    hide AlreadyNotified;
  }

  lemma FinishActs(s: State, w: WorkerId)
    requires OnRow(s, w) && (FansOut(s.locks[Row(s, w)].claim) ==>
                               s.workers[w].resolvedAt.Some? && s.workers[w].todo == map[])
    ensures Next(s, Finish(w)) ==
            Recorded(s.(workers := s.workers[w := Finished(s, w)]))
  {}

  lemma AbortActs(s: State, w: WorkerId)
    requires w in s.workers
    ensures var r := Recorded(Released(s, w).(aborted := s.aborted + {s.workers[w].id}));
            Next(s, Abort(w)) == r && w !in r.workers
  {}

  lemma CommitActs(s: State, w: WorkerId, rows: seq<OutboxId>, now: Time)
    requires Working(s, w, rows, |rows|)
    ensures var r := Recorded(CommitBatch(s, w, now));
            Next(s, Commit(w, now)) == r && w !in r.workers && forall o :: o in rows ==> o in r.marks
  {}
}

/** CatsService.CreateOrdinaryUpdate with an Idempotency-Key, other calls running in between. */
module PostingCode {
  import opened Sql
  import opened Schema
  import opened Writes
  import opened Retries
  import opened Stores
  import opened Corrections
  import M = Machine

  /** What fails: the first lookup, a statement of the transaction, the second lookup. */
  datatype Faults = Faults(lookup: bool, insert: Option<nat>, recovery: bool)

  class UpdatesService {
    const store: Store
    var requests: map<CallId, Request>
    var stages: map<CallId, Stage>
    var answers: map<CallId, UpdateId>
    ghost var history: seq<Step>

    ghost function Now(): State
      reads this, store
    {
      State(store.db, requests, stages, answers)
    }

    ghost predicate Valid()
      reads this, store
    {
      Now() == Run(history)
    }

    constructor (store: Store)
      requires store.db == EMPTY
      ensures Valid() && this.store == store
    {
      this.store := store;
      requests, stages, answers, history := map[], map[], map[], [];
    }

    ghost method Record(step: Step)
      requires Now() == Next(Run(history), step)
      modifies this`history
      ensures Valid() && history == old(history) + [step]
    {
      hide Next;
      assert (history + [step])[..|history|] == history;
      history := history + [step];
    }

    /** Any steps of other calls and any other writes: this call's stage stays. */
    method Others(c: CallId)
      requires Valid()
      modifies this, store
      ensures Valid() && old(history) <= history
      ensures c in old(requests) ==> c in requests && requests[c] == old(requests)[c]
      ensures c in stages <==> c in old(stages)
      ensures c in stages ==> stages[c] == old(stages)[c]
    {}

    /** One whole request. An update with the key answers it. Else the checks and the transaction on the tables of
        moment `at` decide, and if that lost a race, the second lookup on those of moment `again`. */
    method Post(c: CallId, p: NewUpdate, faults: Faults) returns (o: Option<UpdateId>, ghost at: nat, ghost again: nat)
      requires Valid() && c !in requests && p.key.Some?
      modifies this, store
      ensures Valid() && c !in stages && old(history) <= history
      ensures o.Some? ==>
                && c in answers && answers[c] == o.value
                && Retries.Holds(store.db.updates, o.value, Request(p.author, p.key.value))
      ensures faults.lookup ==> o == None && history == old(history)
      ensures !faults.lookup && !KeyFree(old(store.db).updates, p.author, p.key) ==>
                && o.Some? && Retries.Holds(old(store.db).updates, o.value, Request(p.author, p.key.value))
                && history == old(history) + [Begin(c, Request(p.author, p.key.value), o)]
      ensures !faults.lookup && KeyFree(old(store.db).updates, p.author, p.key) ==>
                && |old(history)| < at < |history|
                && history[|old(history)|] == Begin(c, Request(p.author, p.key.value), None)
                && Tried(history, at, again, p, faults, o)
    {
      hide Run, Next, Keyed, Tried, KeyFree;
      at, again := 0, 0;
      var r := Request(p.author, p.key.value);
      CallsStaySound(history);
      if faults.lookup { return None, at, again; }
      var found := store.GetUpdateByIdempotencyKey(r);
      FoundIff(store.db.updates, r, found);
      BeginActs(Now(), c, r, found);
      requests := requests[c := r];
      if found.Some? {
        answers := answers[c := found.value];
        Record(Begin(c, r, found));
        return found, at, again;
      }
      stages := stages[c := Looked];
      Record(Begin(c, r, None));
      Others(c);
      at := |history|;
      o, again := Insert(c, p, faults);
    }

    /** The checks and the transaction. */
    method Insert(c: CallId, p: NewUpdate, faults: Faults) returns (o: Option<UpdateId>, ghost again: nat)
      requires Valid() && p.key.Some? && At(Now(), c, Looked) && requests[c] == Request(p.author, p.key.value)
      modifies this, store
      ensures Valid() && c !in stages && old(history) < history
      ensures o.Some? ==>
                && c in answers && answers[c] == o.value
                && Retries.Holds(store.db.updates, o.value, Request(p.author, p.key.value))
      ensures Tried(history, |old(history)|, again, p, faults, o)
    {
      hide Run, Next, Keyed, M.Inv, ValidStatuses, KeyFree, Insertable, CreateUpdate, CanCreate;
      again := 0;
      ghost var before, t := history, store.db;
      assert Run(before).db == t;
      Reachable(history);
      FailActs(Now(), c);
      var found := store.GetUpdateByIdempotencyKey(requests[c]);
      FoundIff(t.updates, requests[c], found);
      var valid := ValidateStatusSet(p.statuses, p.needsHelp);
      var checked := valid && CatExists(store.db, p.cat, p.author)
                     && (p.media.Some? ==> OwnMedium(store.db, p.media.value, p.author));
      if !checked {
        End(c);
        assert history[..|before|] == before;
        return None, again;
      }
      if found.Some? {
        o, again := LoseRace(c, p, found.value, faults);
        return;
      }
      InsertActs(Now(), c, p);
      CanCreateIff(t, p);
      var ok := store.InsertUpdate(p, faults.insert);
      if !ok {
        End(c);
        assert history[..|before|] == before;
        return None, again;
      }
      stages, answers := stages - {c}, answers[c := p.id];
      Record(Step.Insert(c, p));
      assert history[..|before|] == before;
      return Some(p.id), again;
    }

    method LoseRace(c: CallId, p: NewUpdate, ghost winner: UpdateId, faults: Faults)
      returns (o: Option<UpdateId>, ghost again: nat)
      requires Valid() && p.key.Some? && At(Now(), c, Looked) && requests[c] == Request(p.author, p.key.value)
      requires Checked(store.db, p) && Retries.Holds(store.db.updates, winner, requests[c])
      modifies this, store
      ensures Valid() && c !in stages && old(history) < history
      ensures o.Some? ==>
                && c in answers && answers[c] == o.value
                && Retries.Holds(store.db.updates, o.value, Request(p.author, p.key.value))
      ensures Tried(history, |old(history)|, again, p, faults, o)
    {
      hide Run, Next, Keyed, M.Inv, Checked, Insertable;
      ghost var before := history;
      assert Run(before).db == store.db;
      ConflictActs(Now(), c, p, winner);
      stages := stages[c := Conflicted];
      Record(Step.Insert(c, p));
      Others(c);
      again := |history|;
      ghost var mid := history;
      assert Run(mid).db == store.db;
      o := Recover(c, faults);
      assert history[..|before|] == before && history[..again] == mid;
    }

    method End(c: CallId)
      requires Valid()
      modifies this
      ensures Valid() && c !in stages && history == old(history) + [Fail(c)]
    {
      hide Run, Next;
      FailActs(Now(), c);
      stages := stages - {c};
      Record(Fail(c));
    }

    /** The fallback lookup. */
    method Recover(c: CallId, faults: Faults) returns (o: Option<UpdateId>)
      requires Valid() && At(Now(), c, Conflicted)
      modifies this
      ensures Valid() && c !in stages && old(history) < history
      ensures o.Some? ==>
                c in answers && answers[c] == o.value && Retries.Holds(store.db.updates, o.value, old(requests)[c])
      ensures var r := old(requests)[c];
              o.Some? <==> !faults.recovery && !KeyFree(store.db.updates, r.author, Some(r.key))
    {
      hide Run, Next, Keyed, KeyFree;
      if faults.recovery {
        End(c);
        return None;
      }
      o := store.GetUpdateByIdempotencyKey(requests[c]);
      FoundIff(store.db.updates, requests[c], o);
      LookUpActs(Now(), c, o);
      stages := stages - {c};
      if o.Some? { answers := answers[c := o.value]; }
      Record(LookUp(c, o));
    }
  }

  /** How a request without an earlier update ends, from the tables of the two moments at which it looked. */
  ghost predicate Tried(h: seq<Step>, at: nat, again: nat, p: NewUpdate, faults: Faults, o: Option<UpdateId>) {
    && at < |h|
    && var t := Run(h[..at]).db;
    && (!Checked(t, p) ==> o == None)
    && (Checked(t, p) && KeyFree(t.updates, p.author, p.key) ==>
          o == if Insertable(t, p) && !(faults.insert.Some? && faults.insert.value < Statements(p)) then Some(p.id)
               else None)
    && (Checked(t, p) && !KeyFree(t.updates, p.author, p.key) ==>
          && at < again < |h|
          && (o.Some? <==> !faults.recovery && !KeyFree(Run(h[..again]).db.updates, p.author, p.key)))
  }

  lemma FoundIff(updates: map<UpdateId, Update>, r: Request, found: Option<UpdateId>)
    requires LookupReturns(updates, r, found)
    ensures found.None? <==> KeyFree(updates, r.author, Some(r.key))
    ensures found.Some? ==> Retries.Holds(updates, found.value, r)
  {
    if found.Some? { KeyTaken(updates, found.value, r); }
  }

  lemma BeginActs(s: State, c: CallId, r: Request, found: Option<UpdateId>)
    requires CallsSound(s) && c !in s.requests && LookupReturns(s.db.updates, r, found)
    ensures var t := s.(requests := s.requests[c := r]);
            Next(s, Begin(c, r, found)) ==
            if found.Some? then t.(answers := t.answers[c := found.value]) else t.(stages := t.stages[c := Looked])
    ensures c !in s.stages
  {
    hide LookupReturns;
    assert s.stages - {c} == s.stages;
  }

  lemma FailActs(s: State, c: CallId)
    ensures Next(s, Fail(c)) == s.(stages := s.stages - {c})
  {}

  lemma ConflictActs(s: State, c: CallId, p: NewUpdate, id: UpdateId)
    requires At(s, c, Looked) && p.key.Some? && s.requests[c] == Request(p.author, p.key.value)
    requires id in s.db.updates && Keyed(s.db.updates[id], p.author, p.key.value)
    ensures Next(s, Step.Insert(c, p)) == s.(stages := s.stages[c := Conflicted])
  {
    hide ValidStatuses, CatExists;
  }

  lemma InsertActs(s: State, c: CallId, p: NewUpdate)
    requires At(s, c, Looked) && p.key.Some? && s.requests[c] == Request(p.author, p.key.value)
    ensures CanCreate(s.db, p) ==>
              && Next(s, Step.Insert(c, p)) == Retries.Answer(s, c, p.id).(db := CreateUpdate(s.db, p))
              && Retries.Holds(CreateUpdate(s.db, p).updates, p.id, s.requests[c])
  {
    hide Eligible, ValidStatuses, CatExists, StatusRows;
  }

  lemma LookUpActs(s: State, c: CallId, found: Option<UpdateId>)
    requires At(s, c, Conflicted) && LookupReturns(s.db.updates, s.requests[c], found)
    ensures Next(s, LookUp(c, found)) ==
            if found.Some? then Retries.Answer(s, c, found.value) else s.(stages := s.stages - {c})
  {
    hide LookupReturns;
  }
}
