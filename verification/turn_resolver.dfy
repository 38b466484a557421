/** The issued-number GraphQL resolver: the `turn` query and the `requestTurn` and
    `cancelTurn` mutations, as pure functions of the table, the caller's token and
    the already-decoded ids. */
module TurnResolver {
  import opened Wrappers
  import opened IssuedNumbers

  /** The authentication context of a request (`ctx.tokenInfo`). */
  datatype TokenInfo = TokenInfo(isValid: bool, clientId: Option<int>)

  /** The GraphQL error codes this resolver returns. */
  datatype ErrorCode =
    | InvalidToken
    | NoClientId
    | InvalidClientId
    | InvalidShopId
    | InvalidTurnId
    | TurnNotFound
    | ActiveTurn(turnId: int)
    | PendingTurnsQuotaExceeded
    | TodayTurnsQuotaExceeded
    | OpError

  /** A client may hold at most this many pending turns. */
  const MAX_PENDING_TURNS: nat := 3
  /** A client may take at most this many turns per day. */
  const MAX_TURNS_PER_DAY: nat := 5

  /** `ctx.tokenInfo?.isValid` */
  predicate TokenValid(token: Option<TokenInfo>) {
    token.Some? && token.value.isValid
  }

  /** `ctx.tokenInfo?.clientId` is truthy. */
  predicate HasClientId(token: Option<TokenInfo>) {
    token.Some? && Truthy(token.value.clientId)
  }

  /** `issuedNumber.clientId === ctx.tokenInfo.clientId` */
  predicate OwnedBy(row: IssuedNumber, token: TokenInfo) {
    token.clientId.Some? && row.clientId == token.clientId.value
  }

  // ---------------------------------------------------------------------------
  // Helpers over the fetched list of turns
  // ---------------------------------------------------------------------------

  /** `r` holds every element of `turns` satisfying `p`, as often as it occurs
      there, and nothing else. */
  ghost predicate KeepsMatches(turns: seq<IssuedNumber>, p: IssuedNumber -> bool, r: seq<IssuedNumber>) {
    forall x :: multiset(r)[x] == if p(x) then multiset(turns)[x] else 0
  }

  /** `turns.filter(p)` */
  function Filter(turns: seq<IssuedNumber>, p: IssuedNumber -> bool): (r: seq<IssuedNumber>)
    ensures |r| <= |turns|
    ensures forall i | 0 <= i < |r| :: r[i] in turns && p(r[i])
    ensures |r| == |turns| ==> forall i | 0 <= i < |turns| :: p(turns[i])
    ensures |r| == 0 <==> forall i | 0 <= i < |turns| :: !p(turns[i])
  {
    if turns == [] then []
    else
      var rest := Filter(turns[1..], p);
      if p(turns[0]) then [turns[0]] + rest
      else rest
  }

  /** The filter keeps every element satisfying `p` as often as it occurs: with the
      contract of `Filter`, its result is exactly the matching elements. */
  lemma {:induction false} FilterKeepsMatches(turns: seq<IssuedNumber>, p: IssuedNumber -> bool)
    ensures KeepsMatches(turns, p, Filter(turns, p))
  {
    if turns != [] {
      FilterKeepsMatches(turns[1..], p);
      assert turns == [turns[0]] + turns[1..];
    }
  }

  /** `turns.find(p)`: the first element satisfying `p`. */
  function Find(turns: seq<IssuedNumber>, p: IssuedNumber -> bool): (r: Option<IssuedNumber>)
    ensures r.None? <==> forall i | 0 <= i < |turns| :: !p(turns[i])
    ensures r.Some? ==> exists i | 0 <= i < |turns| ::
      turns[i] == r.value && p(r.value) && forall j | 0 <= j < i :: !p(turns[j])
  {
    if turns == [] then None
    else if p(turns[0]) then Some(turns[0])
    else
      var r := Find(turns[1..], p);
      assert r.Some? ==> exists i | 0 <= i < |turns[1..]| ::
        turns[1..][i] == r.value && p(r.value) && forall j | 0 <= j < i :: !p(turns[1..][j]);
      if r.Some? then
        var i :| 0 <= i < |turns[1..]| &&
          turns[1..][i] == r.value && p(r.value) && forall j | 0 <= j < i :: !p(turns[1..][j]);
        assert turns[i + 1] == r.value;
        assert forall j | 0 <= j < i + 1 :: !p(turns[j]) by {
          forall j | 0 <= j < i + 1 ensures !p(turns[j]) {
            if j > 0 {
              assert turns[j] == turns[1..][j - 1];
            }
          }
        }
        r
      else
        assert forall i | 0 < i < |turns| :: turns[i] == turns[1..][i - 1];
        r
  }

  // ---------------------------------------------------------------------------
  // requestTurn
  // ---------------------------------------------------------------------------

  /** A fetched turn that is pending at `shopId`. */
  predicate PendingAt(shopId: int, row: IssuedNumber) {
    row.shopId == shopId && row.status == PENDING
  }

  /** A fetched turn with status 0. */
  predicate IsPending(row: IssuedNumber) {
    row.status == PENDING
  }

  /** A fetched turn created at or after the start of today. */
  predicate CreatedSince(startOfToday: int, row: IssuedNumber) {
    row.createdAt >= startOfToday
  }

  function PendingCount(turns: seq<IssuedNumber>): nat {
    |Filter(turns, IsPending)|
  }

  function TodayCount(turns: seq<IssuedNumber>, startOfToday: int): nat {
    |Filter(turns, row => CreatedSince(startOfToday, row))|
  }

  predicate HasPendingAt(turns: seq<IssuedNumber>, shopId: int) {
    exists i | 0 <= i < |turns| :: PendingAt(shopId, turns[i])
  }

  /** The checks `requestTurn` runs on the client's fetched turns, in order, and
      the call of the stored procedure, whose success is `procedureOk`. */
  function CheckTurns(turns: seq<IssuedNumber>, shopId: int, startOfToday: int, procedureOk: bool)
    : (r: Result<int, ErrorCode>)
    ensures r.Err? && r.error.ActiveTurn? <==> HasPendingAt(turns, shopId)
    ensures r.Err? && r.error.ActiveTurn? ==> exists i | 0 <= i < |turns| ::
      turns[i].id == r.error.turnId && PendingAt(shopId, turns[i])
      && forall j | 0 <= j < i :: !PendingAt(shopId, turns[j])
    ensures r == Err(PendingTurnsQuotaExceeded) <==>
      !HasPendingAt(turns, shopId) && PendingCount(turns) >= MAX_PENDING_TURNS
    ensures r == Err(TodayTurnsQuotaExceeded) <==>
      !HasPendingAt(turns, shopId) && PendingCount(turns) < MAX_PENDING_TURNS
      && TodayCount(turns, startOfToday) >= MAX_TURNS_PER_DAY
    ensures r == Err(OpError) <==>
      !HasPendingAt(turns, shopId) && PendingCount(turns) < MAX_PENDING_TURNS
      && TodayCount(turns, startOfToday) < MAX_TURNS_PER_DAY && !procedureOk
    ensures r.Ok? <==>
      !HasPendingAt(turns, shopId) && PendingCount(turns) < MAX_PENDING_TURNS
      && TodayCount(turns, startOfToday) < MAX_TURNS_PER_DAY && procedureOk
    ensures r.Ok? ==> r.value == |turns| + 1
  {
    match Find(turns, row => PendingAt(shopId, row))
    case Some(pending) => Err(ActiveTurn(pending.id))
    case None =>
      if PendingCount(turns) >= MAX_PENDING_TURNS then Err(PendingTurnsQuotaExceeded)
      else if TodayCount(turns, startOfToday) >= MAX_TURNS_PER_DAY then Err(TodayTurnsQuotaExceeded)
      else if !procedureOk then Err(OpError)
      else Ok(|turns| + 1)
  }

  /** `requestTurn(shopId)`. `decodedShopId` is what `decodeId` made of the argument;
      on success the result is `pendingTurnsAmount`. */
  function RequestTurn(db: Table, token: Option<TokenInfo>, decodedShopId: Option<int>,
                       startOfToday: int, procedureOk: bool): (r: Result<int, ErrorCode>)
    requires Keyed(db)
    ensures r == Err(InvalidClientId) <==> !HasClientId(token)
    ensures r == Err(InvalidShopId) <==> HasClientId(token) && !Truthy(decodedShopId)
    ensures HasClientId(token) && Truthy(decodedShopId) ==>
      r == CheckTurns(GetTurns(db, token.value.clientId.value), decodedShopId.value,
                      startOfToday, procedureOk)
    ensures r.Ok? ==> 1 <= r.value <= TURNS_LIMIT + 1
  {
    if !HasClientId(token) then Err(InvalidClientId)
    else if !Truthy(decodedShopId) then Err(InvalidShopId)
    else
      var turns := GetTurns(db, token.value.clientId.value);
      CheckTurns(turns, decodedShopId.value, startOfToday, procedureOk)
  }

  // ---------------------------------------------------------------------------
  // turn
  // ---------------------------------------------------------------------------

  /** What the `turn` query returns about a turn. The shop name comes from a join
      with the shop table and `numberToTurn` formats the number; both are left out. */
  datatype TurnView = TurnView(turnId: int, shopId: int, number: int, status: int)

  /** The `turn(turnId)` query. `decodedTurnId` is what `decodeId` made of the argument. */
  function TurnQuery(db: Table, token: Option<TokenInfo>, decodedTurnId: Option<int>)
    : (r: Result<TurnView, ErrorCode>)
    ensures r == Err(InvalidToken) <==> !TokenValid(token)
    ensures r == Err(InvalidTurnId) <==> TokenValid(token) && !Truthy(decodedTurnId)
    ensures r == Err(TurnNotFound) <==>
      TokenValid(token) && Truthy(decodedTurnId)
      && (decodedTurnId.value !in db || !OwnedBy(db[decodedTurnId.value], token.value))
    ensures r.Ok? ==>
      TokenValid(token) && Truthy(decodedTurnId)
      && decodedTurnId.value in db && OwnedBy(db[decodedTurnId.value], token.value)
    ensures r.Ok? ==> var row := db[decodedTurnId.value];
      r.value == TurnView(decodedTurnId.value, row.shopId, row.number, row.status)
  {
    if !TokenValid(token) then Err(InvalidToken)
    else if !Truthy(decodedTurnId) then Err(InvalidTurnId)
    else
      var id := decodedTurnId.value;
      if id !in db || !OwnedBy(db[id], token.value) then Err(TurnNotFound)
      else
        var row := db[id];
        Ok(TurnView(id, row.shopId, row.number, row.status))
  }

  /** A caller cannot tell a missing turn from another client's turn: both tables
      give the same answer, whatever the other client's row holds. */
  lemma TurnQueryHidesForeignTurns(db: Table, token: Option<TokenInfo>, id: int, row: IssuedNumber)
    requires TokenValid(token) && id != 0 && id !in db
    requires token.value.clientId.Some? ==> row.clientId != token.value.clientId.value
    ensures TurnQuery(db, token, Some(id)) == TurnQuery(db[id := row], token, Some(id)) == Err(TurnNotFound)
  {
  }

  // ---------------------------------------------------------------------------
  // cancelTurn
  // ---------------------------------------------------------------------------

  /** The `cancelTurn(turnId)` mutation. On success the result is the updated table. */
  function CancelTurn(db: Table, token: Option<TokenInfo>, decodedTurnId: Option<int>)
    : (r: Result<Table, ErrorCode>)
    ensures r == Err(InvalidToken) <==> !TokenValid(token)
    ensures r == Err(NoClientId) <==> TokenValid(token) && !HasClientId(token)
    ensures r == Err(InvalidTurnId) <==> TokenValid(token) && HasClientId(token) && !Truthy(decodedTurnId)
    ensures r == Err(TurnNotFound) <==>
      TokenValid(token) && HasClientId(token) && Truthy(decodedTurnId)
      && decodedTurnId.value !in db
    ensures r == Err(InvalidClientId) <==>
      TokenValid(token) && HasClientId(token) && Truthy(decodedTurnId)
      && decodedTurnId.value in db && !OwnedBy(db[decodedTurnId.value], token.value)
    ensures r.Ok? ==>
      TokenValid(token) && HasClientId(token) && Truthy(decodedTurnId)
      && decodedTurnId.value in db && OwnedBy(db[decodedTurnId.value], token.value)
    ensures r.Ok? ==>
      r.value.Keys == db.Keys
      && r.value[decodedTurnId.value] == db[decodedTurnId.value].(status := CANCELLED)
      && forall k | k in db && k != decodedTurnId.value :: r.value[k] == db[k]
  {
    if !TokenValid(token) then Err(InvalidToken)
    else if !HasClientId(token) then Err(NoClientId)
    else if !Truthy(decodedTurnId) then Err(InvalidTurnId)
    else
      var id := decodedTurnId.value;
      if id !in db then Err(TurnNotFound)
      else if !OwnedBy(db[id], token.value) then Err(InvalidClientId)
      else Ok(Cancel(db, id))
  }

  // ---------------------------------------------------------------------------
  // Properties relating the operations
  // ---------------------------------------------------------------------------

  /** The daily quota can only fire on a full list whose turns are all from today:
      `todayAppointments.length >= 5` on at most five fetched turns means every one
      of them counts. */
  lemma TodayQuotaMeansFiveTurnsToday(turns: seq<IssuedNumber>, shopId: int, startOfToday: int,
                                      procedureOk: bool)
    requires |turns| <= TURNS_LIMIT
    requires CheckTurns(turns, shopId, startOfToday, procedureOk) == Err(TodayTurnsQuotaExceeded)
    ensures |turns| == TURNS_LIMIT
    ensures forall i | 0 <= i < |turns| :: turns[i].createdAt >= startOfToday
  {
  }

  /** A granted request leaves the client with no pending turn at that shop among the
      fetched turns and fewer than three pending turns in all of them. */
  lemma GrantedRequestRespectsQuotas(db: Table, token: Option<TokenInfo>, decodedShopId: Option<int>,
                                     startOfToday: int, procedureOk: bool)
    requires Keyed(db)
    requires RequestTurn(db, token, decodedShopId, startOfToday, procedureOk).Ok?
    ensures HasClientId(token) && Truthy(decodedShopId) && procedureOk
    ensures var turns := GetTurns(db, token.value.clientId.value);
      && (forall i | 0 <= i < |turns| :: !PendingAt(decodedShopId.value, turns[i]))
      && PendingCount(turns) < MAX_PENDING_TURNS
      && TodayCount(turns, startOfToday) < MAX_TURNS_PER_DAY
  {
  }

  /** With a valid token and a client id, `cancelTurn` succeeds exactly when the
      `turn` query would show the turn, and where the query answers `TURN_NOT_FOUND`
      the mutation tells a missing turn from a foreign one. */
  lemma CancelAgreesWithTurnQuery(db: Table, token: Option<TokenInfo>, decodedTurnId: Option<int>)
    requires TokenValid(token) && HasClientId(token)
    ensures CancelTurn(db, token, decodedTurnId).Ok? <==> TurnQuery(db, token, decodedTurnId).Ok?
    ensures TurnQuery(db, token, decodedTurnId) == Err(TurnNotFound) ==>
      (CancelTurn(db, token, decodedTurnId) == Err(TurnNotFound) <==> decodedTurnId.value !in db)
      && (CancelTurn(db, token, decodedTurnId) == Err(InvalidClientId) <==> decodedTurnId.value in db)
  {
  }

  /** Cancelling again after a successful cancel leaves the table as it is. */
  lemma CancelIsIdempotent(db: Table, token: Option<TokenInfo>, decodedTurnId: Option<int>)
    requires CancelTurn(db, token, decodedTurnId).Ok?
    ensures CancelTurn(CancelTurn(db, token, decodedTurnId).value, token, decodedTurnId)
      == CancelTurn(db, token, decodedTurnId)
  {
    var db' := CancelTurn(db, token, decodedTurnId).value;
    assert CancelTurn(db', token, decodedTurnId).value == db';
  }

  /** After a successful cancel the owner's `turn` query shows the turn with status 3. */
  lemma CancelThenQuery(db: Table, token: Option<TokenInfo>, decodedTurnId: Option<int>)
    requires CancelTurn(db, token, decodedTurnId).Ok?
    ensures var row := db[decodedTurnId.value];
      TurnQuery(CancelTurn(db, token, decodedTurnId).value, token, decodedTurnId)
        == Ok(TurnView(decodedTurnId.value, row.shopId, row.number, CANCELLED))
  {
  }

  /** Cancelling keeps every row under its own id. */
  lemma CancelKeepsTableKeyed(db: Table, token: Option<TokenInfo>, decodedTurnId: Option<int>)
    requires Keyed(db)
    requires CancelTurn(db, token, decodedTurnId).Ok?
    ensures Keyed(CancelTurn(db, token, decodedTurnId).value)
  {
  }

  /** Cancelling the client's only pending turn at a shop frees that shop: a new
      request there is no longer refused with `ACTIVE_TURN`. */
  lemma CancelReleasesShop(db: Table, token: Option<TokenInfo>, id: int, shopId: int,
                           startOfToday: int, procedureOk: bool)
    requires Keyed(db)
    requires CancelTurn(db, token, Some(id)).Ok?
    requires forall k | k in db && k != id ::
      !(db[k].clientId == token.value.clientId.value && PendingAt(shopId, db[k]))
    ensures Keyed(CancelTurn(db, token, Some(id)).value)
    ensures var r := RequestTurn(CancelTurn(db, token, Some(id)).value, token, Some(shopId),
                                 startOfToday, procedureOk);
      !(r.Err? && r.error.ActiveTurn?)
  {
    var db' := CancelTurn(db, token, Some(id)).value;
    assert Keyed(db');
    var turns := GetTurns(db', token.value.clientId.value);
    forall i | 0 <= i < |turns| ensures !PendingAt(shopId, turns[i]) {
      var k := turns[i].id;
      assert k in db' && db'[k] == turns[i];
      if k != id {
        assert db[k] == turns[i];
      }
    }
  }

  // ---------------------------------------------------------------------------
  // The one-pending-turn-per-shop and three-pending-turns rules look only at the
  // five newest live turns
  // ---------------------------------------------------------------------------

  /** Client 1 holds a pending turn (id 1) at shop 7, created before today, behind
      five newer turns with status 1 at shop 8. */
  function HiddenPendingTable(): (db: Table)
    ensures Keyed(db)
  {
    map[1 := IssuedNumber(1, 7, 1, 1, PENDING, 0),
        2 := IssuedNumber(2, 8, 1, 2, 1, 0),
        3 := IssuedNumber(3, 8, 1, 3, 1, 0),
        4 := IssuedNumber(4, 8, 1, 4, 1, 0),
        5 := IssuedNumber(5, 8, 1, 5, 1, 0),
        6 := IssuedNumber(6, 8, 1, 6, 1, 0)]
  }

  /** As written, `requestTurn` grants client 1 a second pending turn at shop 7:
      the pending turn is sixth in id order and never fetched. */
  lemma PendingTurnBeyondFiveIsMissed()
    ensures var db := HiddenPendingTable();
      && 1 in db && db[1].clientId == 1 && PendingAt(7, db[1])
      && RequestTurn(db, Some(TokenInfo(true, Some(1))), Some(7), 1, true) == Ok(6)
  {
    var db := HiddenPendingTable();
    HiddenTableSelection();
    OldestTurnIsNotFetched(db, 1, 1, 1);
    QuietTurnsAreGranted(GetTurns(db, 1), 7, 1);
  }

  /** When a client has more than five live turns, the oldest one is never fetched,
      so only the other turns' statuses and dates reach the checks. */
  lemma OldestTurnIsNotFetched(db: Table, clientId: int, oldest: int, startOfToday: int)
    requires Keyed(db)
    requires |SelectedIds(db, clientId)| > TURNS_LIMIT
    requires oldest in SelectedIds(db, clientId)
    requires forall k | k in SelectedIds(db, clientId) :: oldest <= k
    requires forall k | k in SelectedIds(db, clientId) && k != oldest ::
      db[k].status != PENDING && db[k].createdAt < startOfToday
    ensures var turns := GetTurns(db, clientId);
      |turns| == TURNS_LIMIT
      && forall i | 0 <= i < |turns| :: turns[i].status != PENDING && turns[i].createdAt < startOfToday
  {
    var turns := GetTurns(db, clientId);
    GetTurnsDropsOlderTurns(db, clientId, oldest);
    forall i | 0 <= i < |turns| ensures turns[i].status != PENDING && turns[i].createdAt < startOfToday {
      var k := turns[i].id;
      assert k in db && db[k] == turns[i] && Selected(db[k], clientId);
      assert k in SelectedIds(db, clientId) && k != oldest;
    }
  }

  lemma HiddenTableSelection()
    ensures SelectedIds(HiddenPendingTable(), 1) == {1, 2, 3, 4, 5, 6}
    ensures |SelectedIds(HiddenPendingTable(), 1)| == 6
  {
  }

  /** Fetched turns of which none is pending and none is from today let any request
      through once the procedure succeeds. */
  lemma QuietTurnsAreGranted(turns: seq<IssuedNumber>, shopId: int, startOfToday: int)
    requires forall i | 0 <= i < |turns| :: turns[i].status != PENDING && turns[i].createdAt < startOfToday
    ensures CheckTurns(turns, shopId, startOfToday, true) == Ok(|turns| + 1)
  {
  }

  /** The ids of all the client's pending turns at a shop. */
  function PendingIdsAt(db: Table, clientId: int, shopId: int): set<int> {
    set k | k in db && db[k].clientId == clientId && PendingAt(shopId, db[k])
  }

  /** The ids of all the client's pending turns. */
  function PendingIds(db: Table, clientId: int): set<int> {
    set k | k in db && db[k].clientId == clientId && IsPending(db[k])
  }

  /** `requestTurn` with the pending-turn rules applied to all of the client's
      pending turns, as their comments state them; the daily quota and the result
      are those of `RequestTurn`. */
  function RequestTurnAllPending(db: Table, token: Option<TokenInfo>, decodedShopId: Option<int>,
                                 startOfToday: int, procedureOk: bool): (r: Result<int, ErrorCode>)
    requires Keyed(db)
    ensures r == Err(InvalidClientId) <==> !HasClientId(token)
    ensures r == Err(InvalidShopId) <==> HasClientId(token) && !Truthy(decodedShopId)
    ensures r.Err? && r.error.ActiveTurn? <==>
      HasClientId(token) && Truthy(decodedShopId)
      && exists k | k in db :: db[k].clientId == token.value.clientId.value && PendingAt(decodedShopId.value, db[k])
    ensures r.Err? && r.error.ActiveTurn? ==>
      var id := r.error.turnId;
      id in db && db[id].clientId == token.value.clientId.value && PendingAt(decodedShopId.value, db[id])
    ensures r.Ok? ==>
      && HasClientId(token) && Truthy(decodedShopId) && procedureOk
      && (forall k | k in db && db[k].clientId == token.value.clientId.value ::
            !PendingAt(decodedShopId.value, db[k]))
      && |PendingIds(db, token.value.clientId.value)| < MAX_PENDING_TURNS
      && 1 <= r.value <= TURNS_LIMIT + 1
  {
    if !HasClientId(token) then Err(InvalidClientId)
    else if !Truthy(decodedShopId) then Err(InvalidShopId)
    else
      var clientId := token.value.clientId.value;
      var atShop := PendingIdsAt(db, clientId, decodedShopId.value);
      assert forall k | k in db && db[k].clientId == clientId && PendingAt(decodedShopId.value, db[k]) ::
        k in atShop;
      if atShop != {} then Err(ActiveTurn(MaxOf(atShop)))
      else if |PendingIds(db, clientId)| >= MAX_PENDING_TURNS then Err(PendingTurnsQuotaExceeded)
      else
        var turns := GetTurns(db, clientId);
        if TodayCount(turns, startOfToday) >= MAX_TURNS_PER_DAY then Err(TodayTurnsQuotaExceeded)
        else if !procedureOk then Err(OpError)
        else Ok(|turns| + 1)
  }

  /** On the table above, the corrected rules refuse the request with the hidden turn. */
  lemma AllPendingCatchesHiddenTurn()
    ensures RequestTurnAllPending(HiddenPendingTable(), Some(TokenInfo(true, Some(1))), Some(7), 1, true)
      == Err(ActiveTurn(1))
  {
    var db := HiddenPendingTable();
    assert PendingIdsAt(db, 1, 7) == {1};
  }

  // ---------------------------------------------------------------------------
  // The corrected rules agree with the code while every live turn is fetched
  // ---------------------------------------------------------------------------

  /** The ids of the turns of a list that satisfy `p`. */
  function IdsWhere(turns: seq<IssuedNumber>, p: IssuedNumber -> bool): set<int> {
    set i | 0 <= i < |turns| && p(turns[i]) :: turns[i].id
  }

  lemma IdsWhereCons(turns: seq<IssuedNumber>, p: IssuedNumber -> bool)
    requires turns != []
    ensures IdsWhere(turns, p) == (if p(turns[0]) then {turns[0].id} else {}) + IdsWhere(turns[1..], p)
  {
  }

  /** On rows with distinct ids, `filter(p).length` counts the ids satisfying `p`. */
  lemma {:induction false} FilterCount(turns: seq<IssuedNumber>, p: IssuedNumber -> bool)
    requires NewestFirst(turns)
    ensures |Filter(turns, p)| == |IdsWhere(turns, p)|
  {
    if turns != [] {
      var rest := turns[1..];
      FilterCount(rest, p);
      IdsWhereCons(turns, p);
      forall k | k in IdsWhere(rest, p) ensures k < turns[0].id {
        var i :| 0 <= i < |rest| && p(rest[i]) && rest[i].id == k;
        assert turns[i + 1] == rest[i];
      }
    }
  }

  /** A client with at most five live turns gets all of them fetched. */
  lemma FetchesAllWhenFew(db: Table, clientId: int)
    requires Keyed(db)
    requires |SelectedIds(db, clientId)| <= TURNS_LIMIT
    ensures Ids(GetTurns(db, clientId)) == SelectedIds(db, clientId)
  {
    var turns := GetTurns(db, clientId);
    var all := SelectedIds(db, clientId);
    forall k | k in Ids(turns) ensures k in all {
      var i :| 0 <= i < |turns| && turns[i].id == k;
    }
    if exists k :: k in all && k !in Ids(turns) {
      var k :| k in all && k !in Ids(turns);
      IdsDistinct(turns);
      SubsetCardinality(Ids(turns), all - {k});
      assert false;
    }
  }

  /** When every live turn is fetched, the fetched turns satisfying a condition that
      implies a live status are exactly the client's rows satisfying it. */
  lemma FetchedIdsWhere(db: Table, clientId: int, q: IssuedNumber -> bool)
    requires Keyed(db)
    requires Ids(GetTurns(db, clientId)) == SelectedIds(db, clientId)
    requires forall row :: q(row) ==> IsLive(row.status)
    ensures IdsWhere(GetTurns(db, clientId), q) == set k | k in db && db[k].clientId == clientId && q(db[k])
  {
    var turns := GetTurns(db, clientId);
    forall k | k in db && db[k].clientId == clientId && q(db[k]) ensures k in IdsWhere(turns, q) {
      assert k in SelectedIds(db, clientId);
      var i :| 0 <= i < |turns| && turns[i].id == k;
      assert q(turns[i]);
    }
  }

  /** On a newest-first list, `find` returns the element with the largest id among
      those satisfying `q`, and nothing exactly when no id satisfies it. */
  lemma FindReturnsNewest(turns: seq<IssuedNumber>, q: IssuedNumber -> bool)
    requires NewestFirst(turns)
    ensures Find(turns, q).None? <==> IdsWhere(turns, q) == {}
    ensures Find(turns, q).Some? ==> Find(turns, q).value.id == MaxOf(IdsWhere(turns, q))
  {
    var found := Find(turns, q);
    if found.Some? {
      var i :| 0 <= i < |turns| && turns[i] == found.value && q(turns[i])
        && forall j | 0 <= j < i :: !q(turns[j]);
      assert turns[i].id in IdsWhere(turns, q);
      var m := MaxOf(IdsWhere(turns, q));
      var j :| 0 <= j < |turns| && q(turns[j]) && turns[j].id == m;
      assert i <= j;
    }
  }

  /** When every live turn is fetched, `find` returns the newest pending turn of the
      client at the shop, and nothing exactly when there is none. */
  lemma FetchedFindAgrees(db: Table, clientId: int, shopId: int)
    requires Keyed(db)
    requires Ids(GetTurns(db, clientId)) == SelectedIds(db, clientId)
    ensures var found := Find(GetTurns(db, clientId), row => PendingAt(shopId, row));
      && (found.None? <==> PendingIdsAt(db, clientId, shopId) == {})
      && (found.Some? ==> found.value.id == MaxOf(PendingIdsAt(db, clientId, shopId)))
  {
    var q := row => PendingAt(shopId, row);
    FetchedIdsWhere(db, clientId, q);
    assert PendingIdsAt(db, clientId, shopId) == IdsWhere(GetTurns(db, clientId), q);
    FindReturnsNewest(GetTurns(db, clientId), q);
  }

  /** When every live turn is fetched, the pending count of the fetched list is the
      number of the client's pending turns. */
  lemma FetchedPendingCount(db: Table, clientId: int)
    requires Keyed(db)
    requires Ids(GetTurns(db, clientId)) == SelectedIds(db, clientId)
    ensures PendingCount(GetTurns(db, clientId)) == |PendingIds(db, clientId)|
  {
    var turns := GetTurns(db, clientId);
    FetchedIdsWhere(db, clientId, IsPending);
    assert PendingIds(db, clientId) == IdsWhere(turns, IsPending);
    FilterCount(turns, IsPending);
  }

  /** While a client has at most five live turns, the corrected rules and the code
      give the same answer; they differ only for turns the code does not fetch. */
  lemma AllPendingAgreesWithFewTurns(db: Table, token: Option<TokenInfo>, decodedShopId: Option<int>,
                                     startOfToday: int, procedureOk: bool)
    requires Keyed(db)
    requires HasClientId(token) ==> |SelectedIds(db, token.value.clientId.value)| <= TURNS_LIMIT
    ensures RequestTurnAllPending(db, token, decodedShopId, startOfToday, procedureOk)
      == RequestTurn(db, token, decodedShopId, startOfToday, procedureOk)
  {
    if HasClientId(token) && Truthy(decodedShopId) {
      var clientId := token.value.clientId.value;
      FetchesAllWhenFew(db, clientId);
      FetchedFindAgrees(db, clientId, decodedShopId.value);
      FetchedPendingCount(db, clientId);
    }
  }
}
