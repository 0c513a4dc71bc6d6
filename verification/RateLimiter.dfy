/** The per-key fixed-window rate limiter of internal/ingest/ratelimit.go. */
module RateLimiter {
  import opened Wrappers
  import opened Units
  import opened Numbers

  datatype Window = Window(start: int, count: int)

  function Second(at: int): int {
    at / NANOS_PER_SECOND
  }

  /** Readings share a window exactly when the same whole second of a thousand million nanoseconds holds them. */
  lemma SameSecondIff(a: int, b: int)
    ensures Second(a) == Second(b) <==>
            exists s: int :: Starts(s) <= a < Starts(s + 1) && Starts(s) <= b < Starts(s + 1)
  {
    if Second(a) == Second(b) {
      assert Starts(Second(a)) <= a < Starts(Second(a) + 1) && Starts(Second(a)) <= b < Starts(Second(a) + 1);
    }
  }

  function Starts(second: int): int {
    second * 1_000_000_000
  }

  /** One request: the table afterwards, and whether it is let through. */
  function Step(windows: map<int, Window>, key: int, limit: int, at: int): (map<int, Window>, bool) {
    if key <= 0 || limit <= 0 then (windows, true)
    else if key !in windows || windows[key].start != Second(at) then (windows[key := Window(Second(at), 1)], true)
    else if windows[key].count >= limit then (windows, false)
    else (windows[key := windows[key].(count := windows[key].count + 1)], true)
  }

  /** Requests of the key that the table counts for a second. */
  function AdmittedNow(windows: map<int, Window>, key: int, second: int): int {
    if key in windows && windows[key].start == second then windows[key].count else 0
  }

  class MemoryRateLimiter {
    var windows: map<int, Window>

    constructor ()
      ensures windows == map[]
    {
      windows := map[];
    }

    method Allow(apiKeyId: int, limitPerSec: int, at: int) returns (allowed: bool)
      modifies this
      ensures (windows, allowed) == Step(old(windows), apiKeyId, limitPerSec, at)
      // Refused exactly when the key is limited and this second's admissions have used the limit up.
      ensures !allowed <==>
              apiKeyId > 0 && limitPerSec > 0 && AdmittedNow(old(windows), apiKeyId, Second(at)) >= limitPerSec
      // An admission of a limited key is counted, a refusal is not, and other keys keep their counts.
      ensures apiKeyId > 0 && limitPerSec > 0 ==>
                AdmittedNow(windows, apiKeyId, Second(at))
                == AdmittedNow(old(windows), apiKeyId, Second(at)) + if allowed then 1 else 0
      ensures forall key, second :: key != apiKeyId ==>
              AdmittedNow(windows, key, second) == AdmittedNow(old(windows), key, second)
    {
      if apiKeyId <= 0 || limitPerSec <= 0 {
        return true;
      }
      var now := Second(at);
      if apiKeyId !in windows || windows[apiKeyId].start != now {
        windows := windows[apiKeyId := Window(now, 1)];
        return true;
      }
      var window := windows[apiKeyId];
      if window.count >= limitPerSec {
        return false;
      }
      windows := windows[apiKeyId := window.(count := window.count + 1)];
      return true;
    }
  }

  // ----- runs

  datatype Request = Request(key: int, limit: int, at: int)

  function WindowsAfter(requests: seq<Request>): map<int, Window> {
    if requests == [] then map[]
    else
      var last := requests[|requests| - 1];
      Step(WindowsAfter(requests[..|requests| - 1]), last.key, last.limit, last.at).0
  }

  /** Whether the last request of a run is admitted. */
  predicate LastAdmitted(requests: seq<Request>)
    requires requests != []
  {
    var last := requests[|requests| - 1];
    Step(WindowsAfter(requests[..|requests| - 1]), last.key, last.limit, last.at).1
  }

  predicate InSecond(r: Request, key: int, second: int) {
    r.key == key && Second(r.at) == second
  }

  function Asked(requests: seq<Request>, key: int, second: int): nat {
    if requests == [] then 0
    else
      var n := |requests| - 1;
      Asked(requests[..n], key, second) + if InSecond(requests[n], key, second) then 1 else 0
  }

  function Admitted(requests: seq<Request>, key: int, second: int): nat {
    if requests == [] then 0
    else
      var n := |requests| - 1;
      Admitted(requests[..n], key, second) +
      if InSecond(requests[n], key, second) && LastAdmitted(requests) then 1 else 0
  }

  // ----- how often a window opens

  ghost predicate FixedLimit(requests: seq<Request>, key: int, limit: int) {
    forall i :: 0 <= i < |requests| && requests[i].key == key ==> requests[i].limit == limit
  }

  /** The clock second of the key's latest request. */
  function LastSecond(requests: seq<Request>, key: int): Option<int> {
    if requests == [] then None
    else
      var n := |requests| - 1;
      if requests[n].key == key then Some(Second(requests[n].at)) else LastSecond(requests[..n], key)
  }

  /** How often the key's requests come to a second from another one. Callers read the clock before they take the
      lock, so a second can come back. */
  function Opened(requests: seq<Request>, key: int, second: int): nat {
    if requests == [] then 0
    else
      var n := |requests| - 1;
      Opened(requests[..n], key, second) +
      if InSecond(requests[n], key, second) && LastSecond(requests[..n], key) != Some(second) then 1 else 0
  }

  /** The key's requests since the latest opening. */
  function InBlock(requests: seq<Request>, key: int): nat {
    if requests == [] then 0
    else
      var n := |requests| - 1;
      var past, last := requests[..n], requests[n];
      if last.key != key then InBlock(past, key)
      else if LastSecond(past, key) == Some(Second(last.at)) then InBlock(past, key) + 1
      else 1
  }

  /** The table's window is the latest opening and what it has admitted. */
  ghost predicate Tracks(requests: seq<Request>, key: int, limit: int) {
    var windows := WindowsAfter(requests);
    match LastSecond(requests, key)
    case None => key !in windows
    case Some(second) =>
      key in windows && windows[key] == Window(second, Min(InBlock(requests, key), limit))
        && InBlock(requests, key) >= 1
  }

  lemma {:induction false} RunTracks(requests: seq<Request>, key: int, limit: int)
    requires key > 0 && limit > 0 && FixedLimit(requests, key, limit)
    ensures Tracks(requests, key, limit)
  {
    if requests != [] {
      RunTracks(requests[..|requests| - 1], key, limit);
    }
  }

  /** A request is refused exactly when it stays in the window that is open and the limit is used up there. */
  lemma {:induction false} RefusedIff(requests: seq<Request>, key: int, limit: int)
    requires key > 0 && limit > 0 && FixedLimit(requests, key, limit)
    requires requests != [] && requests[|requests| - 1].key == key
    ensures var past, second := requests[..|requests| - 1], Second(requests[|requests| - 1].at);
            !LastAdmitted(requests) <==> LastSecond(past, key) == Some(second) && InBlock(past, key) >= limit
  {
    RunTracks(requests[..|requests| - 1], key, limit);
  }

  // ----- what one second admits

  /** The account of one second; block counts the open window, if it is that second's. */
  datatype Tally = Tally(asked: nat, admitted: nat, openings: nat, block: Option<nat>)

  function TallyOf(requests: seq<Request>, key: int, second: int): Tally {
    Tally(Asked(requests, key, second), Admitted(requests, key, second), Opened(requests, key, second),
          if LastSecond(requests, key) == Some(second) then Some(InBlock(requests, key)) else None)
  }

  /** One more request of the key, in this second or in another one. */
  function Next(t: Tally, here: bool, limit: int): Tally {
    if !here then t.(block := None)
    else
      match t.block
      case None => Tally(t.asked + 1, t.admitted + 1, t.openings + 1, Some(1))
      case Some(block) =>
        Tally(t.asked + 1, t.admitted + if block < limit then 1 else 0, t.openings, Some(block + 1))
  }

  /** Everything asked is admitted as long as it fits the limit, one opening admits up to the limit, and more openings
      together admit more than it as soon as more is asked. */
  predicate Sound(t: Tally, limit: int) {
    && (t.openings == 0 <==> t.asked == 0) && t.openings <= t.asked && t.admitted <= t.asked
    && (t.asked <= limit ==> t.admitted == t.asked)
    && (t.openings == 1 ==> t.admitted == Min(t.asked, limit))
    && (t.openings >= 2 && t.asked > limit ==> t.admitted > limit)
    && (t.block.Some? ==> t.openings >= 1 && t.block.value <= t.asked)
    && (t.block.Some? && t.openings == 1 ==> t.block.value == t.asked)
    && (t.block.Some? && t.openings >= 2 ==> t.block.value < t.asked)
  }

  lemma NextSound(t: Tally, here: bool, limit: int)
    requires limit > 0 && Sound(t, limit)
    ensures Sound(Next(t, here, limit), limit)
  {
  }

  lemma TallyNext(requests: seq<Request>, key: int, limit: int, second: int)
    requires key > 0 && limit > 0 && FixedLimit(requests, key, limit) && requests != []
    ensures var n := |requests| - 1;
            TallyOf(requests, key, second) ==
            if requests[n].key == key
            then Next(TallyOf(requests[..n], key, second), Second(requests[n].at) == second, limit)
            else TallyOf(requests[..n], key, second)
  {
    if requests[|requests| - 1].key == key {
      RefusedIff(requests, key, limit);
    }
  }

  lemma {:induction false} RunAccounts(requests: seq<Request>, key: int, limit: int, second: int)
    requires key > 0 && limit > 0 && FixedLimit(requests, key, limit)
    ensures Sound(TallyOf(requests, key, second), limit)
  {
    if requests != [] {
      var n := |requests| - 1;
      RunAccounts(requests[..n], key, limit, second);
      TallyNext(requests, key, limit, second);
      NextSound(TallyOf(requests[..n], key, second), Second(requests[n].at) == second, limit);
    }
  }

  /** What a number of full windows admits. */
  function Quota(limit: int, openings: nat): int {
    limit * openings
  }

  lemma QuotaAdds(limit: int, a: nat, b: nat)
    ensures Quota(limit, a + b) == Quota(limit, a) + Quota(limit, b)
  {
  }

  /** The windows before the current one are full at most, and the current one holds what it has admitted. */
  predicate WithinQuota(t: Tally, limit: int) {
    match t.block
    case None => t.admitted <= Quota(limit, t.openings)
    case Some(block) => t.openings > 0 && t.admitted <= Quota(limit, t.openings - 1) + Min(block, limit)
  }

  lemma NextWithinQuota(t: Tally, here: bool, limit: int)
    requires limit > 0 && WithinQuota(t, limit)
    ensures WithinQuota(Next(t, here, limit), limit) && t.admitted <= Quota(limit, t.openings)
  {
    if t.openings > 0 {
      QuotaAdds(limit, t.openings - 1, 1);
    }
  }

  /** However the readings arrive, a second admits at most the limit for each time it is opened. */
  lemma {:induction false} AdmittedPerOpening(requests: seq<Request>, key: int, limit: int, second: int)
    requires key > 0 && limit > 0 && FixedLimit(requests, key, limit)
    ensures WithinQuota(TallyOf(requests, key, second), limit)
    ensures Admitted(requests, key, second) <= limit * Opened(requests, key, second)
  {
    if requests != [] {
      var n := |requests| - 1;
      AdmittedPerOpening(requests[..n], key, limit, second);
      TallyNext(requests, key, limit, second);
      NextWithinQuota(TallyOf(requests[..n], key, second), Second(requests[n].at) == second, limit);
    }
    NextWithinQuota(TallyOf(requests, key, second), false, limit);
  }

  /** The exact condition for the limit: of n requests in a second exactly min(n, limit) are admitted, and no more than
      the limit, if and only if the second is opened at most once or no more than the limit is asked for. */
  lemma LimitHoldsIff(requests: seq<Request>, key: int, limit: int, second: int)
    requires key > 0 && limit > 0 && FixedLimit(requests, key, limit)
    ensures var asked, once := Asked(requests, key, second), Opened(requests, key, second) <= 1;
            && (Admitted(requests, key, second) <= limit <==> once || asked <= limit)
            && (Admitted(requests, key, second) == Min(asked, limit) <==> once || asked <= limit)
  {
    RunAccounts(requests, key, limit, second);
  }

  /** When a request is in the only opening of its second, it is refused exactly when the limit has been admitted. */
  lemma RefusedIffUsedUp(requests: seq<Request>, key: int, limit: int)
    requires key > 0 && limit > 0 && FixedLimit(requests, key, limit)
    requires requests != [] && requests[|requests| - 1].key == key
    requires Opened(requests, key, Second(requests[|requests| - 1].at)) <= 1
    ensures var n := |requests| - 1;
            !LastAdmitted(requests) <==> Admitted(requests[..n], key, Second(requests[n].at)) >= limit
  {
    var n := |requests| - 1;
    RunAccounts(requests[..n], key, limit, Second(requests[n].at));
    RefusedIff(requests, key, limit);
  }

  // ----- readings in order

  /** The key's requests reach the table in the order of their clock seconds. */
  ghost predicate InOrder(requests: seq<Request>, key: int) {
    forall i, j :: 0 <= i < j < |requests| && requests[i].key == key && requests[j].key == key ==>
      Second(requests[i].at) <= Second(requests[j].at)
  }

  lemma {:induction false} LastSecondTaken(requests: seq<Request>, key: int)
    ensures match LastSecond(requests, key)
            case None => forall i :: 0 <= i < |requests| ==> requests[i].key != key
            case Some(second) =>
              exists i :: 0 <= i < |requests| && requests[i].key == key && Second(requests[i].at) == second
  {
    if requests != [] {
      LastSecondTaken(requests[..|requests| - 1], key);
    }
  }

  lemma {:induction false} OrderedOpensOnce(requests: seq<Request>, key: int, second: int)
    requires InOrder(requests, key)
    ensures Opened(requests, key, second) <= 1
    ensures LastSecond(requests, key).None? || second > LastSecond(requests, key).value ==>
            Opened(requests, key, second) == 0
  {
    if requests != [] {
      var n := |requests| - 1;
      OrderedOpensOnce(requests[..n], key, second);
      LastSecondTaken(requests[..n], key);
    }
  }

  /** Then of n requests by a key in one clock second exactly min(n, limit) are admitted, whatever other keys do. */
  lemma ExactlyLimitPerSecond(requests: seq<Request>, key: int, limit: int, second: int)
    requires key > 0 && limit > 0 && FixedLimit(requests, key, limit) && InOrder(requests, key)
    ensures Admitted(requests, key, second) == Min(Asked(requests, key, second), limit)
  {
    OrderedOpensOnce(requests, key, second);
    LimitHoldsIff(requests, key, limit, second);
  }

  /** Two callers at the turn of a second: the one that read the clock first comes to the table last. */
  function LateReading(): seq<Request> {
    [Request(1, 1, 0), Request(1, 1, NANOS_PER_SECOND), Request(1, 1, 0)]
  }

  /** Out of order a second can be opened twice, and then admits two requests under a limit of one. */
  lemma LateReadingBreaksLimit()
    ensures FixedLimit(LateReading(), 1, 1) && Opened(LateReading(), 1, 0) == 2
    ensures Asked(LateReading(), 1, 0) == Admitted(LateReading(), 1, 0) == 2
  {
    var late := LateReading();
    assert late[..2][..1] == late[..1] && late[..1][..0] == [];
    assert TallyOf([], 1, 0) == Tally(0, 0, 0, None);
    TallyNext(late[..1], 1, 1, 0);
    assert TallyOf(late[..1], 1, 0) == Tally(1, 1, 1, Some(1));
    TallyNext(late[..2], 1, 1, 0);
    assert TallyOf(late[..2], 1, 0) == Tally(1, 1, 1, None);
    TallyNext(late, 1, 1, 0);
  }

  // ----- arbitrary intervals

  predicate InInterval(r: Request, key: int, from: int, to: int) {
    r.key == key && from <= r.at < to
  }

  function AdmittedIn(requests: seq<Request>, key: int, from: int, to: int): nat {
    if requests == [] then 0
    else
      var n := |requests| - 1;
      AdmittedIn(requests[..n], key, from, to) +
      if InInterval(requests[n], key, from, to) && LastAdmitted(requests) then 1 else 0
  }

  /** Admissions in a row of consecutive clock seconds. */
  function AdmittedOver(requests: seq<Request>, key: int, first: int, seconds: nat): nat {
    if seconds == 0 then 0
    else AdmittedOver(requests, key, first, seconds - 1) + Admitted(requests, key, first + seconds - 1)
  }

  lemma {:induction false} OverOneMore(requests: seq<Request>, key: int, first: int, seconds: nat)
    requires requests != []
    ensures
      var n := |requests| - 1;
      var r := requests[n];
      AdmittedOver(requests, key, first, seconds) == AdmittedOver(requests[..n], key, first, seconds) +
        if r.key == key && first <= Second(r.at) < first + seconds && LastAdmitted(requests) then 1 else 0
  {
    if seconds > 0 {
      OverOneMore(requests, key, first, seconds - 1);
    }
  }

  lemma {:induction false} IntervalWithinSeconds(requests: seq<Request>, key: int, from: int, to: int, first: int,
                                                 seconds: nat)
    requires first == Second(from) && to <= (first + seconds) * NANOS_PER_SECOND
    ensures AdmittedIn(requests, key, from, to) <= AdmittedOver(requests, key, first, seconds)
  {
    if requests != [] {
      IntervalWithinSeconds(requests[..|requests| - 1], key, from, to, first, seconds);
      OverOneMore(requests, key, first, seconds);
    }
  }

  function OpenedOver(requests: seq<Request>, key: int, first: int, seconds: nat): nat {
    if seconds == 0 then 0
    else OpenedOver(requests, key, first, seconds - 1) + Opened(requests, key, first + seconds - 1)
  }

  lemma {:induction false} OverBounded(requests: seq<Request>, key: int, limit: int, first: int, seconds: nat)
    requires key > 0 && limit > 0 && FixedLimit(requests, key, limit)
    ensures AdmittedOver(requests, key, first, seconds) <= Quota(limit, OpenedOver(requests, key, first, seconds))
  {
    if seconds > 0 {
      OverBounded(requests, key, limit, first, seconds - 1);
      AdmittedPerOpening(requests, key, limit, first + seconds - 1);
      QuotaAdds(limit, OpenedOver(requests, key, first, seconds - 1), Opened(requests, key, first + seconds - 1));
    }
  }

  lemma {:induction false} OrderedOver(requests: seq<Request>, key: int, first: int, seconds: nat)
    requires InOrder(requests, key)
    ensures OpenedOver(requests, key, first, seconds) <= seconds
  {
    if seconds > 0 {
      OrderedOver(requests, key, first, seconds - 1);
      OrderedOpensOnce(requests, key, first + seconds - 1);
    }
  }

  /** Any half-open interval of L seconds, wherever it starts, admits at most the limit for each opening of the L + 1
      clock seconds it touches; so at most (L + 1) * limit when the readings come in order. */
  lemma BurstBound(requests: seq<Request>, key: int, limit: int, from: int, length: nat)
    requires key > 0 && limit > 0 && FixedLimit(requests, key, limit)
    ensures AdmittedIn(requests, key, from, from + length * NANOS_PER_SECOND)
            <= limit * OpenedOver(requests, key, Second(from), length + 1)
    ensures InOrder(requests, key) ==>
              AdmittedIn(requests, key, from, from + length * NANOS_PER_SECOND) <= (length + 1) * limit
  {
    IntervalWithinSeconds(requests, key, from, from + length * NANOS_PER_SECOND, Second(from), length + 1);
    OverBounded(requests, key, limit, Second(from), length + 1);
    if InOrder(requests, key) {
      OrderedOver(requests, key, Second(from), length + 1);
      ProductMonotone(limit, OpenedOver(requests, key, Second(from), length + 1), length + 1);
    }
  }

  lemma ProductMonotone(limit: int, a: int, b: int)
    requires limit > 0 && a <= b
    ensures limit * a <= b * limit
  {
  }

  function EdgeBurst(): seq<Request> {
    [Request(1, 1, NANOS_PER_SECOND - 1), Request(1, 1, NANOS_PER_SECOND)]
  }

  /** The extra window is reached: two requests a nanosecond apart both pass a limit of one. */
  lemma BurstBoundIsTight()
    ensures FixedLimit(EdgeBurst(), 1, 1) && InOrder(EdgeBurst(), 1)
    ensures AdmittedIn(EdgeBurst(), 1, NANOS_PER_SECOND - 1, 2 * NANOS_PER_SECOND - 1) == 2
  {
    var burst := EdgeBurst();
    assert burst[..1] == [burst[0]] && burst[..1][..0] == [];
    assert LastAdmitted(burst[..1]);
    assert WindowsAfter(burst[..1]) == map[1 := Window(0, 1)];
    assert LastAdmitted(burst);
    var from, to := NANOS_PER_SECOND - 1, 2 * NANOS_PER_SECOND - 1;
    assert AdmittedIn(burst[..1], 1, from, to) == AdmittedIn([], 1, from, to) + 1;
    assert AdmittedIn(burst, 1, from, to) == AdmittedIn(burst[..1], 1, from, to) + 1;
  }
}
