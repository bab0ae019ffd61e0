/**
 The login-notice protocol: RequestLogin (services/oauth/auth_service.cc), the OAuth callback
 (services/oauth/oauth_http_service.cc) and the token rows both share (services/db/sqlite_database.cc). It is the
 authorization code grant of section 4.1 of RFC 6749; the callback's `state` and `code` are those of section
 4.1.2. Times are milliseconds on one clock.
 */
module LoginNotice {
  import opened Arithmetic
  import opened Wrappers

  const SCHWAB := "schwab"
  const COOLING_PERIOD := 15 * 60 * 1000
  const NOTICE_TTL := 30 * 60 * 1000

  datatype Row = Row(refreshToken: string, noticeToken: Option<string>, lastNotifiedAt: Option<int>)

  type Rows = map<string, Row>

  /** The database's CURRENT_TIMESTAMP drops what is below its resolution. */
  function Stamp(now: nat, resolution: nat): nat
    requires resolution > 0
  {
    now - now % resolution
  }

  function SaveRefreshToken(rows: Rows, service: string, token: string): Rows {
    rows[service := if service in rows then rows[service].(refreshToken := token, noticeToken := None)
                    else Row(token, None, None)]
  }

  function SaveNoticeToken(rows: Rows, service: string, notice: string, stamp: nat): Rows {
    rows[service := if service in rows then rows[service].(noticeToken := Some(notice), lastNotifiedAt := Some(stamp))
                    else Row("", Some(notice), Some(stamp))]
  }

  function GetAuthToken(rows: Rows, service: string): Option<Row> {
    if service in rows then Some(rows[service]) else None
  }

  function LastNotified(rows: Rows, service: string): Option<int> {
    if service in rows then rows[service].lastNotifiedAt else None
  }

  predicate ShouldNotifyAgain(lastNotifiedAt: int, now: nat) {
    now - lastNotifiedAt > COOLING_PERIOD
  }

  predicate Cooling(rows: Rows, service: string, now: nat) {
    LastNotified(rows, service).Some? && !ShouldNotifyAgain(LastNotified(rows, service).value, now)
  }

  datatype HttpStatus = Ok | BadRequest | NotFound

  /** The callback's checks in their order, up to the exchange of the code. */
  function CheckCallback(rows: Rows, state: Option<string>, code: Option<string>, now: nat): HttpStatus {
    if state.None? || state.value == "" then BadRequest
    else if SCHWAB !in rows || rows[SCHWAB].noticeToken != Some(state.value) then NotFound
    else if rows[SCHWAB].lastNotifiedAt.None? || rows[SCHWAB].lastNotifiedAt.value + NOTICE_TTL < now then BadRequest
    else if code.None? || code.value == "" then BadRequest
    else Ok
  }

  /** The callback goes through exactly for the latest notice token, within half an hour of it, with a code; a state
      that is not the latest token is not found, whatever else is wrong. */
  lemma CallbackAccepts(rows: Rows, state: Option<string>, code: Option<string>, now: nat)
    ensures CheckCallback(rows, state, code, now) == Ok <==>
            && state.Some? && state.value != "" && code.Some? && code.value != ""
            && SCHWAB in rows && rows[SCHWAB].noticeToken == state
            && rows[SCHWAB].lastNotifiedAt.Some? && now - rows[SCHWAB].lastNotifiedAt.value <= 30 * 60_000
    ensures CheckCallback(rows, state, code, now) == NotFound <==>
            state.Some? && state.value != "" && !(SCHWAB in rows && rows[SCHWAB].noticeToken == state)
  {
  }

  lemma StampIs(now: nat, resolution: nat)
    requires resolution > 0
    ensures Stamp(now, resolution) == (now / resolution) * resolution
    ensures Stamp(now, resolution) % resolution == 0
    ensures Stamp(now, resolution) <= now < Stamp(now, resolution) + resolution
  {
    assert now == (now / resolution) * resolution + now % resolution;
    MultipleHasNoRemainder(now / resolution, resolution);
  }

  /** A truncated instant reaches a multiple of the resolution exactly when the instant does. */
  lemma StampReaches(now: nat, x: int, resolution: nat)
    requires resolution > 0 && x % resolution == 0
    ensures Stamp(now, resolution) >= x <==> now >= x
  {
    StampIs(now, resolution);
    var q, m := now / resolution, x / resolution;
    assert x == m * resolution;
    if now >= x {
      if q < m {
        MulMonotone(q + 1, m, resolution);
      } else {
        MulMonotone(m, q, resolution);
      }
    }
  }

  /** The recorded gap between two notices, from the moment the second is saved, for a resolution that divides the
      cooling period. */
  lemma GapIsExact(last: int, now: nat, resolution: nat)
    requires resolution > 0 && COOLING_PERIOD % resolution == 0 && last % resolution == 0
    ensures Stamp(now, resolution) - last >= COOLING_PERIOD <==> now >= last + COOLING_PERIOD
    ensures Stamp(now, resolution) - last > COOLING_PERIOD <==> now >= last + COOLING_PERIOD + resolution
  {
    SumOfMultiples(last, COOLING_PERIOD, resolution);
    StampReaches(now, last + COOLING_PERIOD, resolution);
    MultipleHasNoRemainder(1, resolution);
    SumOfMultiples(last + COOLING_PERIOD, resolution, resolution);
    StampReaches(now, last + COOLING_PERIOD + resolution, resolution);
    StampIs(now, resolution);
    var x, y := last + COOLING_PERIOD, Stamp(now, resolution);
    if y > x {
      assert x == (x / resolution) * resolution && y == (now / resolution) * resolution;
      if now / resolution <= x / resolution {
        MulMonotone(now / resolution, x / resolution, resolution);
      } else {
        MulMonotone(x / resolution + 1, now / resolution, resolution);
      }
    }
  }

  // ---------------------------------------------------------------- the services

  datatype Grpc = GrpcOk | FailedPrecondition | InvalidArgument | Internal

  class Database {
    var rows: Rows
    const resolution: nat

    constructor (resolution: nat)
      ensures rows == map[] && this.resolution == resolution
    {
      rows := map[];
      this.resolution := resolution;
    }

    method WriteRefreshToken(service: string, token: string)
      modifies this
      ensures rows == SaveRefreshToken(old(rows), service, token)
      ensures service in rows && rows[service].refreshToken == token && rows[service].noticeToken == None
      ensures rows[service].lastNotifiedAt == if service in old(rows) then old(rows)[service].lastNotifiedAt else None
      ensures rows - {service} == old(rows) - {service}
    {
      if service in rows {
        rows := rows[service := rows[service].(refreshToken := token)];
        rows := rows[service := rows[service].(noticeToken := None)];
      } else {
        rows := rows[service := Row(token, None, None)];
      }
    }

    method WriteNoticeToken(service: string, notice: string, now: nat)
      requires resolution > 0
      modifies this
      ensures rows == SaveNoticeToken(old(rows), service, notice, Stamp(now, resolution))
      ensures service in rows && rows[service].noticeToken == Some(notice)
      ensures rows[service].lastNotifiedAt == Some(now - now % resolution)
      ensures rows[service].refreshToken == if service in old(rows) then old(rows)[service].refreshToken else ""
      ensures rows - {service} == old(rows) - {service}
    {
      var stamp := Stamp(now, resolution);
      if service in rows {
        rows := rows[service := rows[service].(noticeToken := Some(notice))];
        rows := rows[service := rows[service].(lastNotifiedAt := Some(stamp))];
      } else {
        rows := rows[service := Row("", Some(notice), Some(stamp))];
      }
    }

    /** RequestLogin. `now` and `later` are the clock at the check and at the save, `configured` and `delivered`
        whether the flags were set and the notification went out. */
    method RequestLogin(service: string, notice: string, now: nat, later: nat, configured: bool, delivered: bool)
      returns (status: Grpc)
      requires resolution > 0
      modifies this
      ensures var notifies := !Cooling(old(rows), service, now) && service == SCHWAB && configured && delivered;
              && rows == (if notifies then SaveNoticeToken(old(rows), SCHWAB, notice, Stamp(later, resolution))
                          else old(rows))
              && (status == GrpcOk <==> notifies || Cooling(old(rows), service, now))
      ensures status == GrpcOk && rows != old(rows) ==>
                && service == SCHWAB && SCHWAB in rows && rows[SCHWAB].noticeToken == Some(notice)
                && rows[SCHWAB].lastNotifiedAt == Some(later - later % resolution)
                && rows[SCHWAB].refreshToken == (if SCHWAB in old(rows) then old(rows)[SCHWAB].refreshToken else "")
      ensures var recent := service in old(rows) && old(rows)[service].lastNotifiedAt.Some? &&
                            now - old(rows)[service].lastNotifiedAt.value <= 15 * 60_000;
              && (recent ==> status == GrpcOk && rows == old(rows))
              && (!recent && service == SCHWAB && configured && delivered ==>
                    status == GrpcOk && SCHWAB in rows && rows[SCHWAB].noticeToken == Some(notice))
      ensures status == InvalidArgument <==> !Cooling(old(rows), service, now) && service != SCHWAB
      ensures status == FailedPrecondition <==> !Cooling(old(rows), service, now) && service == SCHWAB && !configured
    {
      var token := GetAuthToken(rows, service);
      if token.Some? && token.value.lastNotifiedAt.Some? && !ShouldNotifyAgain(token.value.lastNotifiedAt.value, now) {
        return GrpcOk;
      }
      if service == SCHWAB {
        if !configured { return FailedPrecondition; }
      } else {
        return InvalidArgument;
      }
      if !delivered { return Internal; }
      WriteNoticeToken(service, notice, later);
      return GrpcOk;
    }

    /** The OAuth callback; `exchanged` is what the exchange of the code returned, or None if it threw, in
        which case the exception escapes and there is no response. */
    method OauthCallback(state: Option<string>, code: Option<string>, now: nat, exchanged: Option<string>)
      returns (status: Option<HttpStatus>)
      modifies this
      ensures var checked := CheckCallback(old(rows), state, code, now);
              && (checked != Ok ==> status == Some(checked) && rows == old(rows))
              && (checked == Ok && exchanged.None? ==> status == None && rows == old(rows))
              && (checked == Ok && exchanged.Some? ==>
                    status == Some(Ok) && rows == SaveRefreshToken(old(rows), SCHWAB, exchanged.value))
      ensures status == Some(Ok) ==>
                && exchanged.Some? && SCHWAB in old(rows) && SCHWAB in rows
                && rows[SCHWAB].refreshToken == exchanged.value && rows[SCHWAB].noticeToken == None
                && rows[SCHWAB].lastNotifiedAt == old(rows)[SCHWAB].lastNotifiedAt
                && rows - {SCHWAB} == old(rows) - {SCHWAB}
      ensures status != Some(Ok) ==> rows == old(rows)
    {
      if state.None? || state.value == "" { return Some(BadRequest); }
      var token := GetAuthToken(rows, SCHWAB);
      if token.None? || token.value.noticeToken != Some(state.value) { return Some(NotFound); }
      if token.value.lastNotifiedAt.None? || token.value.lastNotifiedAt.value + NOTICE_TTL < now {
        return Some(BadRequest);
      }
      if code.None? || code.value == "" { return Some(BadRequest); }
      if exchanged.None? { return None; }
      WriteRefreshToken(SCHWAB, exchanged.value);
      return Some(Ok);
    }
  }

  // ---------------------------------------------------------------- the protocol

  /** A RequestLogin between its check and its save; `seen` is the last notice time it read. */
  datatype Login = Login(checkedAt: nat, seen: Option<int>)

  /** A callback between its check and its store; `noticedAt` is the notice time it read. */
  datatype Callback = Callback(token: string, checkedAt: nat, noticedAt: int)

  datatype Notice = Notice(token: string, at: int)

  /** A refresh token stored by a callback, and when. */
  datatype Store = Store(callback: Callback, at: nat)

  /** `logins` maps the fresh token of each RequestLogin under way to what it read. The HTTP server runs its
      handlers on one thread, so at most one callback is under way. `drawn` are all notice tokens generated,
      `notices` the notices recorded and `stores` the refresh tokens stored by callbacks, both in order. */
  datatype System = System(
    rows: Rows, now: nat, logins: map<string, Login>, callback: Option<Callback>,
    drawn: set<string>, notices: seq<Notice>, stores: seq<Store>)

  datatype Step =
    | Tick(elapsed: nat)
    | BeginLogin(service: string, token: string, configured: bool)
    | EndLogin(token: string, delivered: bool)
    | BeginCallback(state: Option<string>, code: Option<string>)
    | EndCallback(exchanged: Option<string>)
    | Rotate(service: string, token: string)

  /** Notice tokens are fresh. */
  predicate Enabled(s: System, step: Step) {
    match step
    case BeginLogin(_, token, _) => token !in s.drawn
    case EndLogin(token, _) => token in s.logins
    case BeginCallback(_, _) => s.callback.None?
    case EndCallback(_) => s.callback.Some?
    case _ => true
  }

  function Apply(s: System, step: Step, resolution: nat): System
    requires resolution > 0 && Enabled(s, step)
  {
    match step
    case Tick(elapsed) => s.(now := s.now + elapsed)
    case BeginLogin(service, token, configured) =>
      if Cooling(s.rows, service, s.now) || service != SCHWAB || !configured then s.(drawn := s.drawn + {token})
      else
        s.(drawn := s.drawn + {token},
           logins := s.logins[token := Login(s.now, LastNotified(s.rows, SCHWAB))])
    case EndLogin(token, delivered) =>
      var over := s.(logins := s.logins - {token});
      if !delivered then over
      else
        var stamp := Stamp(s.now, resolution);
        over.(rows := SaveNoticeToken(s.rows, SCHWAB, token, stamp), notices := s.notices + [Notice(token, stamp)])
    case BeginCallback(state, code) =>
      if CheckCallback(s.rows, state, code, s.now) != Ok then s
      else s.(callback := Some(Callback(state.value, s.now, s.rows[SCHWAB].lastNotifiedAt.value)))
    case EndCallback(exchanged) =>
      var over := s.(callback := None);
      if exchanged.None? then over
      else
        over.(rows := SaveRefreshToken(s.rows, SCHWAB, exchanged.value),
              stores := s.stores + [Store(s.callback.value, s.now)])
    case Rotate(service, token) => s.(rows := SaveRefreshToken(s.rows, service, token))
  }

  ghost predicate Init(s: System) {
    s == System(map[], s.now, map[], None, {}, [], [])
  }

  /** A call goes on to notify exactly for the one service, with the flags set and no notice in the last quarter of
      an hour. */
  lemma LoginBegins(s: System, service: string, token: string, configured: bool, resolution: nat)
    requires resolution > 0 && Enabled(s, BeginLogin(service, token, configured)) && token !in s.logins
    ensures var s' := Apply(s, BeginLogin(service, token, configured), resolution);
            && s'.rows == s.rows && token in s'.drawn
            && (token in s'.logins <==>
                  && service == SCHWAB && configured
                  && !(SCHWAB in s.rows && s.rows[SCHWAB].lastNotifiedAt.Some? &&
                       s.now - s.rows[SCHWAB].lastNotifiedAt.value <= 15 * 60_000))
  {
  }

  /** A callback goes on to the exchange exactly when it is accepted. */
  lemma CallbackBegins(s: System, state: Option<string>, code: Option<string>, resolution: nat)
    requires resolution > 0 && Enabled(s, BeginCallback(state, code))
    ensures var s' := Apply(s, BeginCallback(state, code), resolution);
            && s'.rows == s.rows
            && (s'.callback.Some? <==> CheckCallback(s.rows, state, code, s.now) == Ok)
            && (s'.callback.Some? ==>
                  s'.callback.value == Callback(state.value, s.now, s.rows[SCHWAB].lastNotifiedAt.value))
  {
  }

  function CurrentNotice(rows: Rows): Option<string> {
    if SCHWAB in rows then rows[SCHWAB].noticeToken else None
  }

  predicate WasStored(s: System, token: string) {
    exists k :: 0 <= k < |s.stores| && s.stores[k].callback.token == token
  }

  predicate WasNoticed(s: System, token: string, at: int) {
    exists k :: 0 <= k < |s.notices| && s.notices[k] == Notice(token, at)
  }

  /** Where each notice token is in its life: drawn, pending, current, used. */
  ghost predicate TokensOnce(s: System) {
    && s.logins.Keys <= s.drawn
    && (forall k :: 0 <= k < |s.stores| ==>
          s.stores[k].callback.token in s.drawn && s.stores[k].callback.token !in s.logins)
    && (forall j, k :: 0 <= j < k < |s.stores| ==> s.stores[j].callback.token != s.stores[k].callback.token)
    && (CurrentNotice(s.rows).Some? ==>
          var t := CurrentNotice(s.rows).value;
          t in s.drawn && t !in s.logins && !WasStored(s, t))
    && (s.callback.Some? ==>
          var t := s.callback.value.token;
          t in s.drawn && t !in s.logins && !WasStored(s, t))
  }

  predicate InTime(c: Callback) {
    c.checkedAt - c.noticedAt <= NOTICE_TTL
  }

  /** Every accepted callback answers a recorded notice, and was checked within its lifetime. */
  ghost predicate StoresAnswerNotices(s: System) {
    && (CurrentNotice(s.rows).Some? && LastNotified(s.rows, SCHWAB).Some? ==>
          WasNoticed(s, CurrentNotice(s.rows).value, LastNotified(s.rows, SCHWAB).value))
    && (s.callback.Some? ==>
          InTime(s.callback.value) && WasNoticed(s, s.callback.value.token, s.callback.value.noticedAt))
    && forall k :: 0 <= k < |s.stores| ==>
         InTime(s.stores[k].callback) && WasNoticed(s, s.stores[k].callback.token, s.stores[k].callback.noticedAt)
  }

  /** First the notice, then the check, then the store. */
  ghost predicate InOrder(s: System) {
    && (LastNotified(s.rows, SCHWAB).Some? ==> LastNotified(s.rows, SCHWAB).value <= s.now)
    && (s.callback.Some? ==> s.callback.value.noticedAt <= s.callback.value.checkedAt <= s.now)
    && forall k :: 0 <= k < |s.stores| ==>
         s.stores[k].callback.noticedAt <= s.stores[k].callback.checkedAt <= s.stores[k].at <= s.now
  }

  lemma StepKeepsOrder(s: System, step: Step, resolution: nat)
    requires resolution > 0 && Enabled(s, step) && InOrder(s)
    ensures InOrder(Apply(s, step, resolution))
  {
    hide Cooling;
    StampIs(s.now, resolution);
  }

  lemma SaveKeepsTokens(s: System, token: string, delivered: bool, resolution: nat)
    requires resolution > 0 && Enabled(s, EndLogin(token, delivered)) && TokensOnce(s)
    ensures TokensOnce(Apply(s, EndLogin(token, delivered), resolution))
  {
    assert forall t :: WasStored(Apply(s, EndLogin(token, delivered), resolution), t) ==> WasStored(s, t);
  }

  lemma StoreKeepsTokens(s: System, exchanged: Option<string>, resolution: nat)
    requires resolution > 0 && Enabled(s, EndCallback(exchanged)) && TokensOnce(s)
    ensures TokensOnce(Apply(s, EndCallback(exchanged), resolution))
  {
  }

  lemma StepKeepsTokens(s: System, step: Step, resolution: nat)
    requires resolution > 0 && Enabled(s, step) && TokensOnce(s)
    ensures TokensOnce(Apply(s, step, resolution))
  {
    hide Stamp, Cooling;
    match step
    case EndLogin(token, delivered) => SaveKeepsTokens(s, token, delivered, resolution);
    case EndCallback(exchanged) => StoreKeepsTokens(s, exchanged, resolution);
    case _ => assert forall t :: WasStored(Apply(s, step, resolution), t) ==> WasStored(s, t);
  }

  lemma StillNoticed(s: System, s': System, token: string, at: int)
    requires WasNoticed(s, token, at) && s.notices <= s'.notices
    ensures WasNoticed(s', token, at)
  {
    var k :| 0 <= k < |s.notices| && s.notices[k] == Notice(token, at);
    assert s'.notices[k] == Notice(token, at);
  }

  lemma StepKeepsAnswers(s: System, step: Step, resolution: nat)
    requires resolution > 0 && Enabled(s, step) && StoresAnswerNotices(s)
    ensures StoresAnswerNotices(Apply(s, step, resolution))
  {
    hide Stamp, Cooling;
    var s' := Apply(s, step, resolution);
    forall t, at | WasNoticed(s, t, at) ensures WasNoticed(s', t, at) {
      StillNoticed(s, s', t, at);
    }
    if step.EndLogin? && step.delivered {
      assert s'.notices[|s.notices|] == Notice(step.token, Stamp(s.now, resolution));
    }
  }

  // ---------------------------------------------------------------- whole runs

  ghost predicate Run(states: seq<System>, steps: seq<Step>, resolution: nat) {
    && resolution > 0
    && |states| == |steps| + 1
    && Init(states[0])
    && forall i :: 0 <= i < |steps| ==>
         Enabled(states[i], steps[i]) && states[i + 1] == Apply(states[i], steps[i], resolution)
  }

  /** Over every run each notice token leads to at most one stored refresh token, and every store answers a
      recorded notice whose callback was checked at most half an hour after it. No assumption is made on how many
      RequestLogin calls run at once. */
  lemma {:induction false} EachNoticeStoresOnce(states: seq<System>, steps: seq<Step>, resolution: nat, i: nat)
    requires Run(states, steps, resolution) && i < |states|
    ensures TokensOnce(states[i]) && StoresAnswerNotices(states[i]) && InOrder(states[i])
  {
    hide Enabled, Apply;
    if i > 0 {
      EachNoticeStoresOnce(states, steps, resolution, i - 1);
      StepKeepsTokens(states[i - 1], steps[i - 1], resolution);
      StepKeepsAnswers(states[i - 1], steps[i - 1], resolution);
      StepKeepsOrder(states[i - 1], steps[i - 1], resolution);
    }
  }

  // ---------------------------------------------------------------- what the row holds

  /** The refresh token a step stores, if any. */
  function Stores(s: System, step: Step): Option<string> {
    match step
    case EndCallback(exchanged) => if s.callback.Some? then exchanged else None
    case Rotate(service, token) => if service == SCHWAB then Some(token) else None
    case _ => None
  }

  /** The notice token a step leaves current: a delivered notice sets it, a stored refresh token clears it. */
  function Announces(s: System, step: Step, current: Option<string>): Option<string> {
    if step.EndLogin? && step.delivered then Some(step.token)
    else if Stores(s, step).Some? then None
    else current
  }

  ghost function LatestToken(states: seq<System>, steps: seq<Step>, i: nat): string
    requires i <= |steps| && |states| == |steps| + 1
  {
    if i == 0 then ""
    else
      var stored := Stores(states[i - 1], steps[i - 1]);
      if stored.Some? then stored.value else LatestToken(states, steps, i - 1)
  }

  ghost function CurrentToken(states: seq<System>, steps: seq<Step>, i: nat): Option<string>
    requires i <= |steps| && |states| == |steps| + 1
  {
    if i == 0 then None else Announces(states[i - 1], steps[i - 1], CurrentToken(states, steps, i - 1))
  }

  function RefreshTokenOf(s: System): string {
    if SCHWAB in s.rows then s.rows[SCHWAB].refreshToken else ""
  }

  lemma StepOfRow(s: System, step: Step, resolution: nat)
    requires resolution > 0 && Enabled(s, step)
    ensures var s' := Apply(s, step, resolution); var stored := Stores(s, step);
            var written := stored.Some? || (step.EndLogin? && step.delivered);
            && (SCHWAB in s'.rows <==> SCHWAB in s.rows || written)
            && RefreshTokenOf(s') == (if stored.Some? then stored.value else RefreshTokenOf(s))
            && CurrentNotice(s'.rows) == Announces(s, step, CurrentNotice(s.rows))
            && (forall service :: service != SCHWAB && !(step.Rotate? && step.service == service) ==>
                  GetAuthToken(s'.rows, service) == GetAuthToken(s.rows, service))
  {
    hide Stamp, Cooling, CheckCallback;
  }

  /** In every state of every run the row holds the refresh token stored last, by a callback or a rotation, and none
      if only notices were saved; and the notice token announced last, unless a refresh token was stored since. */
  lemma {:induction false} RowHoldsLatest(states: seq<System>, steps: seq<Step>, resolution: nat, i: nat)
    requires Run(states, steps, resolution) && i < |states|
    ensures RefreshTokenOf(states[i]) == LatestToken(states, steps, i)
    ensures CurrentNotice(states[i].rows) == CurrentToken(states, steps, i)
  {
    hide Enabled, Apply, Stores, Announces, RefreshTokenOf, CurrentNotice;
    if i == 0 {
      StartsWithoutRow(states[0]);
    } else {
      RowHoldsLatest(states, steps, resolution, i - 1);
      StepOfRow(states[i - 1], steps[i - 1], resolution);
    }
  }

  lemma StartsWithoutRow(s: System)
    requires Init(s)
    ensures RefreshTokenOf(s) == "" && CurrentNotice(s.rows) == None
  {
  }

  predicate InLifetime(store: Store) {
    store.at - store.callback.noticedAt <= NOTICE_TTL
  }

  predicate AllInLifetime(s: System) {
    forall k :: 0 <= k < |s.stores| ==> InLifetime(s.stores[k])
  }

  /** The lifetime is checked before the code is exchanged and not again after: an exchange that returns when the
      notice has expired is still stored. */
  predicate ExchangedTooLate(s: System, step: Step) {
    && step.EndCallback? && step.exchanged.Some? && s.callback.Some?
    && s.now > s.callback.value.noticedAt + NOTICE_TTL
  }

  lemma StoreIsInLifetime(s: System, step: Step, resolution: nat)
    requires resolution > 0 && Enabled(s, step)
    ensures AllInLifetime(Apply(s, step, resolution)) <==> AllInLifetime(s) && !ExchangedTooLate(s, step)
  {
    hide Stamp, Cooling, CheckCallback;
    var s' := Apply(s, step, resolution);
    assert forall k :: 0 <= k < |s.stores| ==> s'.stores[k] == s.stores[k];
    if step.EndCallback? && step.exchanged.Some? {
      assert s'.stores[|s.stores|] == Store(s.callback.value, s.now);
    }
  }

  /** Every refresh token was stored within half an hour of its notice exactly when no exchange has returned too
      late. */
  lemma {:induction false} StoredInLifetime(states: seq<System>, steps: seq<Step>, resolution: nat, i: nat)
    requires Run(states, steps, resolution) && i < |states|
    ensures AllInLifetime(states[i]) <==> forall j :: 0 <= j < i ==> !ExchangedTooLate(states[j], steps[j])
  {
    hide Enabled, Apply, ExchangedTooLate;
    if i > 0 {
      StoredInLifetime(states, steps, resolution, i - 1);
      StoreIsInLifetime(states[i - 1], steps[i - 1], resolution);
    }
  }

  // ---------------------------------------------------------------- spacing

  predicate Spaced(notices: seq<Notice>) {
    forall k :: 0 < k < |notices| ==> notices[k].at - notices[k - 1].at >= COOLING_PERIOD
  }

  predicate OnResolution(notices: seq<Notice>, resolution: nat)
    requires resolution > 0
  {
    forall k :: 0 <= k < |notices| ==> notices[k].at % resolution == 0
  }

  function LastNotice(s: System): Option<int> {
    if s.notices == [] then None else Some(s.notices[|s.notices| - 1].at)
  }

  /** The row remembers the last notice, and a login under way has found the notice it read old enough. */
  ghost predicate Remembered(s: System, resolution: nat)
    requires resolution > 0
  {
    && OnResolution(s.notices, resolution)
    && LastNotified(s.rows, SCHWAB) == LastNotice(s)
    && forall t :: t in s.logins ==>
         && s.logins[t].checkedAt <= s.now
         && (s.logins[t].seen.Some? ==> ShouldNotifyAgain(s.logins[t].seen.value, s.logins[t].checkedAt))
  }

  lemma StepRemembers(s: System, step: Step, resolution: nat)
    requires resolution > 0 && Enabled(s, step) && Remembered(s, resolution)
    ensures Remembered(Apply(s, step, resolution), resolution)
  {
    hide Stamp, CheckCallback;
    StampIs(s.now, resolution);
  }

  lemma {:induction false} RunRemembers(states: seq<System>, steps: seq<Step>, resolution: nat, i: nat)
    requires Run(states, steps, resolution) && i < |states|
    ensures Remembered(states[i], resolution)
  {
    hide Enabled, Apply;
    if i > 0 {
      RunRemembers(states, steps, resolution, i - 1);
      StepRemembers(states[i - 1], steps[i - 1], resolution);
    }
  }

  predicate Saves(s: System, step: Step) {
    step.EndLogin? && step.delivered && step.token in s.logins
  }

  /** A save that comes before the cooling period of the last notice is over: the test before the notification
      would fail if it were made now. */
  predicate SavesTooSoon(s: System, step: Step) {
    Saves(s, step) && LastNotice(s).Some? && s.now < LastNotice(s).value + COOLING_PERIOD
  }

  lemma SpacedAppend(notices: seq<Notice>, next: Notice)
    ensures Spaced(notices + [next]) <==>
            Spaced(notices) && (notices == [] || next.at - notices[|notices| - 1].at >= COOLING_PERIOD)
  {
    var all, n := notices + [next], |notices|;
    if Spaced(all) {
      forall k | 0 < k < n ensures notices[k].at - notices[k - 1].at >= COOLING_PERIOD {
        assert all[k] == notices[k] && all[k - 1] == notices[k - 1];
      }
      assert n > 0 ==> all[n].at - all[n - 1].at >= COOLING_PERIOD;
    }
  }

  lemma SaveIsSpaced(s: System, step: Step, resolution: nat)
    requires resolution > 0 && COOLING_PERIOD % resolution == 0
    requires Enabled(s, step) && Remembered(s, resolution)
    ensures Spaced(Apply(s, step, resolution).notices) <==> Spaced(s.notices) && !SavesTooSoon(s, step)
  {
    hide Stamp, CheckCallback, Cooling, Spaced;
    if Saves(s, step) {
      SpacedAppend(s.notices, Notice(step.token, Stamp(s.now, resolution)));
      if s.notices != [] {
        GapIsExact(s.notices[|s.notices| - 1].at, s.now, resolution);
      }
    }
  }

  /** Recorded notices are at least a cooling period apart exactly when every save came at least a cooling period
      after the notice before it, however many calls overlapped, for recorded times of any resolution that divides
      the cooling period. */
  lemma {:induction false} SpacedExactly(states: seq<System>, steps: seq<Step>, resolution: nat, i: nat)
    requires Run(states, steps, resolution) && i < |states| && COOLING_PERIOD % resolution == 0
    ensures Spaced(states[i].notices) <==> forall j :: 0 <= j < i ==> !SavesTooSoon(states[j], steps[j])
  {
    hide Enabled, Apply, SavesTooSoon;
    if i > 0 {
      SpacedExactly(states, steps, resolution, i - 1);
      RunRemembers(states, steps, resolution, i - 1);
      SaveIsSpaced(states[i - 1], steps[i - 1], resolution);
    }
  }

  /** No notice was recorded between the check of the call that saves and its save. */
  predicate Undisturbed(s: System, step: Step) {
    Saves(s, step) ==> s.logins[step.token].seen == LastNotified(s.rows, SCHWAB)
  }

  lemma UndisturbedIsLateEnough(s: System, step: Step, resolution: nat)
    requires resolution > 0 && Remembered(s, resolution) && Undisturbed(s, step)
    ensures !SavesTooSoon(s, step)
    ensures Saves(s, step) && LastNotice(s).Some? ==> s.now > LastNotice(s).value + COOLING_PERIOD
  {
  }

  /** Recorded notices are at least a cooling period apart if none was recorded between the check and the save of
      another call, however many calls are under way at once. */
  lemma NoticesAreSpaced(states: seq<System>, steps: seq<Step>, resolution: nat, i: nat)
    requires Run(states, steps, resolution) && i < |states| && COOLING_PERIOD % resolution == 0
    requires forall j :: 0 <= j < i ==> Undisturbed(states[j], steps[j])
    ensures Spaced(states[i].notices)
  {
    forall j | 0 <= j < i ensures !SavesTooSoon(states[j], steps[j]) {
      RunRemembers(states, steps, resolution, j);
      UndisturbedIsLateEnough(states[j], steps[j], resolution);
    }
    SpacedExactly(states, steps, resolution, i);
  }

  /** What every login under way has read is the last notice. */
  predicate AllUpToDate(s: System) {
    forall t :: t in s.logins ==> s.logins[t].seen == LastNotified(s.rows, SCHWAB)
  }

  lemma OnlyLogin(logins: map<string, Login>, token: string)
    requires token in logins && |logins| <= 1
    ensures logins - {token} == map[]
  {
    assert |logins.Keys - {token}| == 0;
    assert (logins - {token}).Keys == {};
  }

  lemma SerialStepStaysUpToDate(s: System, step: Step, resolution: nat)
    requires resolution > 0 && Enabled(s, step) && AllUpToDate(s) && |s.logins| <= 1
    ensures AllUpToDate(Apply(s, step, resolution))
  {
    hide Stamp, CheckCallback;
    if step.EndLogin? {
      OnlyLogin(s.logins, step.token);
    }
  }

  lemma {:induction false} SerialRunStaysUpToDate(states: seq<System>, steps: seq<Step>, resolution: nat, i: nat)
    requires Run(states, steps, resolution) && i < |states|
    requires forall k :: 0 <= k < i ==> |states[k].logins| <= 1
    ensures AllUpToDate(states[i])
  {
    hide Enabled, Apply;
    if i > 0 {
      SerialRunStaysUpToDate(states, steps, resolution, i - 1);
      SerialStepStaysUpToDate(states[i - 1], steps[i - 1], resolution);
    }
  }

  /** With RequestLogin calls one at a time, recorded notices are at least a cooling period apart. */
  lemma SerialNoticesAreSpaced(states: seq<System>, steps: seq<Step>, resolution: nat, i: nat)
    requires Run(states, steps, resolution) && i < |states| && COOLING_PERIOD % resolution == 0
    requires forall k :: 0 <= k < i ==> |states[k].logins| <= 1
    ensures Spaced(states[i].notices)
  {
    forall j | 0 <= j < i ensures Undisturbed(states[j], steps[j]) {
      SerialRunStaysUpToDate(states, steps, resolution, j);
    }
    NoticesAreSpaced(states, steps, resolution, i);
  }

  /** Two notices are strictly more than a cooling period apart exactly when the save fell a full unit of the
      clock's resolution past it; on a clock of one-millisecond resolution that is always so, for an undisturbed
      call. */
  lemma NoticeGap(states: seq<System>, steps: seq<Step>, resolution: nat, i: nat)
    requires Run(states, steps, resolution) && i < |steps| && COOLING_PERIOD % resolution == 0
    requires Saves(states[i], steps[i]) && states[i].notices != []
    ensures var s, s' := states[i], states[i + 1];
            var last := s.notices[|s.notices| - 1].at;
            && |s'.notices| == |s.notices| + 1
            && (s'.notices[|s.notices|].at - last > COOLING_PERIOD <==> s.now >= last + COOLING_PERIOD + resolution)
            && (Undisturbed(s, steps[i]) && resolution == 1 ==> s'.notices[|s.notices|].at - last > COOLING_PERIOD)
  {
    RunRemembers(states, steps, resolution, i);
    GapIsExact(states[i].notices[|states[i].notices| - 1].at, states[i].now, resolution);
    if Undisturbed(states[i], steps[i]) {
      UndisturbedIsLateEnough(states[i], steps[i], resolution);
    }
  }

  // ---------------------------------------------------------------- runs that show the limits

  lemma Extend(states: seq<System>, steps: seq<Step>, resolution: nat, step: Step)
    returns (states': seq<System>, steps': seq<Step>)
    requires Run(states, steps, resolution) && Enabled(states[|steps|], step)
    ensures Run(states', steps', resolution) && |steps'| == |steps| + 1
    ensures states' == states + [Apply(states[|steps|], step, resolution)]
  {
    states', steps' := states + [Apply(states[|steps|], step, resolution)], steps + [step];
  }

  /** Two RequestLogin calls at once can both find no recent notice and both send one. */
  lemma ConcurrentLoginsNotifyTwice(resolution: nat) returns (states: seq<System>, steps: seq<Step>)
    requires resolution > 0
    ensures Run(states, steps, resolution)
    ensures var notices := states[|steps|].notices;
            |notices| == 2 && notices[0].token != notices[1].token && notices[0].at == notices[1].at
  {
    states, steps := [System(map[], 0, map[], None, {}, [], [])], [];
    states, steps := Extend(states, steps, resolution, BeginLogin(SCHWAB, "a", true));
    states, steps := Extend(states, steps, resolution, BeginLogin(SCHWAB, "b", true));
    states, steps := Extend(states, steps, resolution, EndLogin("a", true));
    states, steps := Extend(states, steps, resolution, EndLogin("b", true));
  }

  predicate Serial(states: seq<System>) {
    forall i :: 0 <= i < |states| ==> |states[i].logins| <= 1
  }

  /** A call with no other under way and no recent notice notifies, and is over. */
  lemma OneCall(states: seq<System>, steps: seq<Step>, resolution: nat, token: string)
    returns (states': seq<System>, steps': seq<Step>)
    requires Run(states, steps, resolution) && Serial(states)
    requires var s := states[|steps|];
             s.logins == map[] && token !in s.drawn && !Cooling(s.rows, SCHWAB, s.now)
    ensures Run(states', steps', resolution) && Serial(states')
    ensures var s := states[|steps|]; var stamp := Stamp(s.now, resolution);
            states'[|steps'|] == s.(rows := SaveNoticeToken(s.rows, SCHWAB, token, stamp), drawn := s.drawn + {token},
                                    notices := s.notices + [Notice(token, stamp)])
  {
    var s := states[|steps|];
    states', steps' := Extend(states, steps, resolution, BeginLogin(SCHWAB, token, true));
    assert states'[|steps'|].logins == map[token := Login(s.now, LastNotified(s.rows, SCHWAB))];
    states', steps' := Extend(states', steps', resolution, EndLogin(token, true));
    assert states'[|steps'|].logins == map[];
  }

  /** On a clock of one second two calls, one after the other, can record notices exactly a cooling period apart. */
  lemma NoticesExactlyCoolingApart() returns (states: seq<System>, steps: seq<Step>)
    ensures Run(states, steps, 1000) && Serial(states)
    ensures var notices := states[|steps|].notices;
            |notices| == 2 && notices[1].at - notices[0].at == COOLING_PERIOD
  {
    assert Stamp(0, 1000) == 0 && Stamp(COOLING_PERIOD + 1, 1000) == COOLING_PERIOD;
    hide Stamp, CheckCallback;
    states, steps := [System(map[], 0, map[], None, {}, [], [])], [];
    states, steps := OneCall(states, steps, 1000, "a");
    assert states[|steps|].notices == [Notice("a", 0)] && states[|steps|].now == 0;
    states, steps := Extend(states, steps, 1000, Tick(COOLING_PERIOD + 1));
    assert LastNotified(states[|steps|].rows, SCHWAB) == Some(0);
    states, steps := OneCall(states, steps, 1000, "b");
  }

  /** A callback checked in time whose code takes two and a half hours to exchange is stored all the same. */
  lemma StoreCanComeLate(resolution: nat) returns (states: seq<System>, steps: seq<Step>)
    requires resolution > 0
    ensures Run(states, steps, resolution)
    ensures var s := states[|steps|]; |s.stores| == 1 && !InLifetime(s.stores[0])
  {
    states, steps := [System(map[], 0, map[], None, {}, [], [])], [];
    states, steps := Extend(states, steps, resolution, BeginLogin(SCHWAB, "a", true));
    states, steps := Extend(states, steps, resolution, EndLogin("a", true));
    states, steps := Extend(states, steps, resolution, BeginCallback(Some("a"), Some("code")));
    states, steps := Extend(states, steps, resolution, Tick(9_000_000));
    states, steps := Extend(states, steps, resolution, EndCallback(Some("refresh")));
  }
}
