/**
  Retrying with geometric backoff. The network is a script: request number `i` is answered or fails. What is counted
  is how many requests are sent and how long is slept in between, for every script.
 */
module Retry {
  import opened Options
  import opened Wire

  /** The answer to request number `i`; absent if it fails or is not there within five seconds. */
  type Script<T> = nat -> Option<T>

  datatype Report<T> = Report(requests: nat, slept: nat, result: Option<T>)

  /**
    `connect_for_file` and `connect_for_head`: try, and on failure sleep and start again with one try less and a
    longer sleep. `tries` is signed and may be used up from the start.
   */
  function Connect<T>(script: Script<T>, first: nat, tries: int, sleep: nat, multiplier: nat): Report<T>
    decreases if tries > 0 then tries else 0
  {
    match script(first)
    case Some(answer) => Report(1, 0, Some(answer))
    case None =>
      if tries > 0 then
        var rest := Connect(script, first + 1, tries - 1, sleep * multiplier, multiplier);
        Report(1 + rest.requests, sleep + rest.slept, rest.result)
      else
        Report(1, 0, None)
  }

  /** `1 + m + ... + m^(k-1)` */
  function Geometric(m: nat, k: nat): nat {
    if k == 0 then 0 else 1 + m * Geometric(m, k - 1)
  }

  function Power(m: nat, k: nat): nat {
    if k == 0 then 1 else m * Power(m, k - 1)
  }

  lemma ShiftSeries(m: nat, g: nat, p: nat)
    requires (m - 1) * g == p - 1
    ensures (m - 1) * (1 + m * g) == m * p - 1
  {
    calc {
      (m - 1) * (1 + m * g);
      (m - 1) + m * ((m - 1) * g);
      (m - 1) + m * (p - 1);
    }
  }

  lemma {:induction false} GeometricClosedForm(m: nat, k: nat)
    ensures (m - 1) * Geometric(m, k) == Power(m, k) - 1
  {
    if k != 0 {
      GeometricClosedForm(m, k - 1);
      ShiftSeries(m, Geometric(m, k - 1), Power(m, k - 1));
    }
  }

  lemma {:induction false} GeometricMonotone(m: nat, j: nat, k: nat)
    requires j <= k
    ensures Geometric(m, j) <= Geometric(m, k)
  {
    if j != 0 {
      GeometricMonotone(m, j - 1, k - 1);
      assert m * Geometric(m, j - 1) <= m * Geometric(m, k - 1);
    }
  }

  function Budget(tries: int): nat {
    if tries > 0 then tries else 0
  }

  lemma MultiplyAssociates(a: nat, b: nat, c: nat)
    ensures (a * b) * c == a * (b * c)
  {
  }

  lemma GeometricUnfold(sleep: nat, multiplier: nat, k: nat)
    ensures sleep + (sleep * multiplier) * Geometric(multiplier, k) == sleep * Geometric(multiplier, k + 1)
  {
    var g := Geometric(multiplier, k);
    MultiplyAssociates(sleep, multiplier, g);
    assert sleep + sleep * (multiplier * g) == sleep * (1 + multiplier * g);
  }

  lemma GeometricNothing(sleep: nat, multiplier: nat)
    ensures sleep * Geometric(multiplier, 0) == 0
  {
  }

  /**
    What a retry loop does, exactly: it sends requests until one is answered or the budget is used up, returns the
    first answer there is, and has slept the partial sum of the geometric series.
   */
  lemma {:induction false} ConnectReport<T>(script: Script<T>, first: nat, tries: int, sleep: nat, multiplier: nat)
    ensures var r := Connect(script, first, tries, sleep, multiplier);
      && 1 <= r.requests <= Budget(tries) + 1
      && (forall i | first <= i < first + r.requests - 1 :: script(i) == None)
      && r.result == script(first + r.requests - 1)
      && (r.result == None ==> r.requests == Budget(tries) + 1)
      && r.slept == sleep * Geometric(multiplier, r.requests - 1)
    decreases Budget(tries)
  {
    hide Geometric;
    GeometricNothing(sleep, multiplier);
    if script(first) == None && tries > 0 {
      ConnectReport(script, first + 1, tries - 1, sleep * multiplier, multiplier);
      var rest := Connect(script, first + 1, tries - 1, sleep * multiplier, multiplier);
      GeometricUnfold(sleep, multiplier, rest.requests - 1);
    }
  }

  /** However the requests fail, the backoff stays below the sum of the whole series. */
  lemma ConnectBudget<T>(script: Script<T>, first: nat, tries: int, sleep: nat, multiplier: nat)
    ensures var r := Connect(script, first, tries, sleep, multiplier);
      r.requests <= Budget(tries) + 1 && r.slept <= sleep * Geometric(multiplier, Budget(tries))
  {
    ConnectReport(script, first, tries, sleep, multiplier);
    var r := Connect(script, first, tries, sleep, multiplier);
    GeometricMonotone(multiplier, r.requests - 1, Budget(tries));
    MultiplyMonotone(sleep, Geometric(multiplier, r.requests - 1), Geometric(multiplier, Budget(tries)));
  }

  lemma MultiplyMonotone(a: nat, b: nat, c: nat)
    requires b <= c
    ensures a * b <= a * c
  {
  }

  // ---------- Content-Length ----------

  predicate IsDigit(ch: char) {
    '0' <= ch <= '9'
  }

  predicate AllDigits(s: string) {
    forall i | 0 <= i < |s| :: IsDigit(s[i])
  }

  function FromDigits(s: string): nat
    requires AllDigits(s)
  {
    if s == "" then 0
    else
      assert IsDigit(s[|s| - 1]);
      10 * FromDigits(s[..|s| - 1]) + (s[|s| - 1] as int - '0' as int)
  }

  /** Rust's `str::parse::<u64>`: digits, one leading plus sign allowed, no overflow. */
  function ParseUInt64(s: string): Option<UInt64> {
    var digits := if |s| > 1 && s[0] == '+' then s[1..] else s;
    if digits != "" && AllDigits(digits) && FromDigits(digits) < TWO64 then Some(FromDigits(digits)) else None
  }

  function Decimal(n: nat): (s: string)
    ensures s != "" && AllDigits(s)
  {
    if n < 10 then ['0' + n as char] else Decimal(n / 10) + ['0' + (n % 10) as char]
  }

  lemma {:induction false} FromDigitsOfDecimal(n: nat)
    ensures FromDigits(Decimal(n)) == n
  {
    var s := Decimal(n);
    if n < 10 {
      assert s[..0] == "";
    } else {
      assert s[..|s| - 1] == Decimal(n / 10);
      FromDigitsOfDecimal(n / 10);
    }
  }

  /** The length header this program writes reads back, exactly if it fits in 64 bits. */
  lemma ContentLengthRoundTrip(n: nat)
    ensures ParseUInt64(Decimal(n)) == (if n < TWO64 then Some(n) else None)
  {
    FromDigitsOfDecimal(n);
    assert IsDigit(Decimal(n)[0]);
  }

  function Zeros(k: nat): (s: string)
    ensures |s| == k && forall i | 0 <= i < k :: s[i] == '0'
  {
    if k == 0 then "" else Zeros(k - 1) + "0"
  }

  /** A row of digits is the decimal of its value behind some zeros. */
  lemma {:induction false} DigitsAreDecimal(s: string) returns (k: nat)
    requires s != "" && AllDigits(s)
    ensures s == Zeros(k) + Decimal(FromDigits(s))
  {
    var init, last := s[..|s| - 1], s[|s| - 1];
    var v: nat := last as int - '0' as int;
    assert ['0' + v as char] == [last];
    assert s == init + [last];
    if init == "" {
      k := 0;
      assert FromDigits(s) == v;
    } else {
      k := DigitsAreDecimal(init);
      var n := FromDigits(init);
      assert FromDigits(s) / 10 == n && FromDigits(s) % 10 == v;
      if n == 0 {
        assert Decimal(0) == "0";
        assert Zeros(k + 1) == init;
        k := k + 1;
      } else {
        assert Decimal(FromDigits(s)) == Decimal(n) + [last];
      }
    }
  }

  lemma {:induction false} FromDigitsOfPadded(k: nat, n: nat)
    ensures FromDigits(Zeros(k) + Decimal(n)) == n
    decreases n
  {
    var s := Zeros(k) + Decimal(n);
    if n < 10 {
      assert s[..|s| - 1] == Zeros(k);
      FromDigitsOfZeros(k);
    } else {
      assert s[..|s| - 1] == Zeros(k) + Decimal(n / 10);
      FromDigitsOfPadded(k, n / 10);
    }
  }

  lemma {:induction false} FromDigitsOfZeros(k: nat)
    ensures FromDigits(Zeros(k)) == 0
  {
    if k != 0 {
      assert Zeros(k)[..k - 1] == Zeros(k - 1);
      FromDigitsOfZeros(k - 1);
    }
  }

  /** A number as it may be spelled: a plus sign, zeros, and its decimal. */
  function Spelled(signed: bool, k: nat, n: nat): string {
    (if signed then "+" else "") + (Zeros(k) + Decimal(n))
  }

  lemma SpelledIsRead(signed: bool, k: nat, n: UInt64)
    ensures ParseUInt64(Spelled(signed, k, n)) == Some(n)
  {
    hide Zeros, Decimal, FromDigits;
    var padded, s := Zeros(k) + Decimal(n), Spelled(signed, k, n);
    FromDigitsOfPadded(k, n);
    assert AllDigits(padded) && IsDigit(padded[0]);
    if signed {
      assert s[0] == '+' && s[1..] == padded;
    } else {
      assert s == padded;
    }
  }

  /** `get_content_length`: the header may be missing. */
  function GetContentLength(header: Option<string>): Option<UInt64> {
    if header.Some? then ParseUInt64(header.value) else None
  }

  /** A number is read from exactly the strings that spell it, if it fits in 64 bits. */
  lemma ParsesExactly(s: string, n: UInt64)
    ensures ParseUInt64(s) == Some(n) <==> exists signed, k: nat :: s == Spelled(signed, k, n)
  {
    if ParseUInt64(s) == Some(n) {
      var signed := |s| > 1 && s[0] == '+';
      var digits := if |s| > 1 && s[0] == '+' then s[1..] else s;
      var k := DigitsAreDecimal(digits);
      assert s == Spelled(signed, k, n);
    }
    if signed, k: nat :| s == Spelled(signed, k, n) {
      SpelledIsRead(signed, k, n);
    }
  }

  /** A length is known exactly if there is a header, and it spells a number that fits in 64 bits. */
  lemma ContentLengthExactly(header: Option<string>, n: UInt64)
    ensures GetContentLength(header) == Some(n) <==>
      header.Some? && exists signed, k: nat :: header.value == Spelled(signed, k, n)
  {
    if header.Some? {
      ParsesExactly(header.value, n);
    }
  }

  // ---------- Fetching a file ----------

  /** An answer to a GET; the body is absent if streaming it fails. */
  datatype Response = Response(status: nat, header: Option<string>, body: Option<Bytes>)

  datatype Download = Unwanted | Downloaded(size: nat, body: Bytes)

  const HTTP_OK: nat := 200
  /** The inner retry: once, after half a second. */
  const INNER_TRIES: int := 1
  const INNER_SLEEP_MS: nat := 500
  const INNER_MULTIPLIER: nat := 1

  /** What one round makes of an answer: a download, a decision against it, or a broken body. */
  function Receive(maximum: nat, r: Response): Option<Download> {
    var length := GetContentLength(r.header);
    if length.Some? && length.value <= maximum && r.status == HTTP_OK then
      match r.body
      case None => None
      case Some(b) => Some(Downloaded(length.value, b))
    else
      Some(Unwanted)
  }

  /** Sleeping is counted apart for the outer and the inner loop. */
  datatype FetchReport = FetchReport(requests: nat, outerSlept: nat, innerSlept: nat, result: Option<Download>)

  /** `internal_fetch_file_with_retries` */
  function Fetch(script: Script<Response>, maximum: nat, first: nat, tries: int, sleep: nat, multiplier: nat)
    : FetchReport
    decreases if tries > 0 then tries else 0
  {
    var inner := Connect(script, first, INNER_TRIES, INNER_SLEEP_MS, INNER_MULTIPLIER);
    var got := if inner.result.Some? then Receive(maximum, inner.result.value) else None;
    if got.None? && tries > 0 then
      var rest := Fetch(script, maximum, first + inner.requests, tries - 1, sleep * multiplier, multiplier);
      FetchReport(inner.requests + rest.requests, sleep + rest.outerSlept, inner.slept + rest.innerSlept, rest.result)
    else
      FetchReport(inner.requests, 0, inner.slept, got)
  }

  lemma {:induction false} FetchBudget(script: Script<Response>, maximum: nat, first: nat, tries: int, sleep: nat,
                                       multiplier: nat)
    ensures var r := Fetch(script, maximum, first, tries, sleep, multiplier);
      && 1 <= r.requests <= 2 * (Budget(tries) + 1)
      && r.outerSlept <= sleep * Geometric(multiplier, Budget(tries))
      && r.innerSlept <= INNER_SLEEP_MS * (Budget(tries) + 1)
    decreases Budget(tries)
  {
    hide Receive, Connect, Geometric;
    ConnectBudget(script, first, INNER_TRIES, INNER_SLEEP_MS, INNER_MULTIPLIER);
    ConnectReport(script, first, INNER_TRIES, INNER_SLEEP_MS, INNER_MULTIPLIER);
    InnerGeometric();
    var inner := Connect(script, first, INNER_TRIES, INNER_SLEEP_MS, INNER_MULTIPLIER);
    if tries > 0 {
      FetchBudget(script, maximum, first + inner.requests, tries - 1, sleep * multiplier, multiplier);
      GeometricUnfold(sleep, multiplier, Budget(tries - 1));
    }
    MultiplyMonotone(sleep, 0, Geometric(multiplier, Budget(tries)));
  }

  /** The answer to request `i` ends the fetch: it was downloaded or decided against. */
  predicate EndsFetch(script: Script<Response>, maximum: nat, i: nat) {
    script(i).Some? && Receive(maximum, script(i).value).Some?
  }

  /** A round that starts with request `i` asks a second time exactly if that one fails. */
  function RoundLength(script: Script<Response>, i: nat): nat {
    if script(i).None? then 2 else 1
  }

  /** `starts` are the requests with which the rounds start, and `end` is the request after the last one. */
  predicate Rounds(script: Script<Response>, starts: seq<nat>, first: nat, end: nat) {
    && starts != [] && starts[0] == first
    && (forall i | 0 <= i < |starts| - 1 :: starts[i + 1] == starts[i] + RoundLength(script, starts[i]))
    && end == starts[|starts| - 1] + RoundLength(script, starts[|starts| - 1])
  }

  lemma InnerRound(script: Script<Response>, first: nat)
    ensures Connect(script, first, INNER_TRIES, INNER_SLEEP_MS, INNER_MULTIPLIER)
         == Report(RoundLength(script, first), 500 * (RoundLength(script, first) - 1),
                   script(first + RoundLength(script, first) - 1))
  {
    hide Geometric;
    InnerGeometric();
    ConnectReport(script, first, INNER_TRIES, INNER_SLEEP_MS, INNER_MULTIPLIER);
  }

  /**
    What a fetch does, exactly. It goes on, round after round, until an answer ends it or the budget is used up; the
    result is what the last answer called for, and only if all rounds took place and the last one failed is there none.
    Between rounds it has slept the partial sum of the series, and half a second within each round of two requests.
   */
  lemma {:induction false} FetchResult(script: Script<Response>, maximum: nat, first: nat, tries: int, sleep: nat,
                                       multiplier: nat) returns (starts: seq<nat>)
    ensures var r := Fetch(script, maximum, first, tries, sleep, multiplier);
      && Rounds(script, starts, first, first + r.requests) && |starts| <= Budget(tries) + 1
      && 1 <= r.requests
      && (forall i | first <= i < first + r.requests - 1 :: !EndsFetch(script, maximum, i))
      && var last := script(first + r.requests - 1);
         && r.result == (if last.Some? then Receive(maximum, last.value) else None)
         && (r.result == None ==> |starts| == Budget(tries) + 1)
         && r.outerSlept == sleep * Geometric(multiplier, |starts| - 1)
         && r.innerSlept == 500 * (r.requests - |starts|)
    decreases Budget(tries)
  {
    hide Connect, GetContentLength, Geometric, Receive;
    GeometricNothing(sleep, multiplier);
    InnerRound(script, first);
    var inner := Connect(script, first, INNER_TRIES, INNER_SLEEP_MS, INNER_MULTIPLIER);
    var got := if inner.result.Some? then Receive(maximum, inner.result.value) else None;
    starts := [first];
    if got.None? && tries > 0 {
      var rest := FetchResult(script, maximum, first + inner.requests, tries - 1, sleep * multiplier, multiplier);
      GeometricUnfold(sleep, multiplier, |rest| - 1);
      starts := starts + rest;
      MoreRounds(script, first, rest, first + Fetch(script, maximum, first, tries, sleep, multiplier).requests);
    }
  }

  lemma MoreRounds(script: Script<Response>, first: nat, rest: seq<nat>, end: nat)
    requires Rounds(script, rest, first + RoundLength(script, first), end)
    ensures Rounds(script, [first] + rest, first, end)
  {
    assert forall i | 0 <= i < |rest| :: ([first] + rest)[i + 1] == rest[i];
  }

  /** Each round takes a request or two. */
  lemma {:induction false} RoundsTakeRequests(script: Script<Response>, starts: seq<nat>, first: nat, end: nat)
    requires Rounds(script, starts, first, end)
    ensures first + |starts| <= end <= first + 2 * |starts|
    decreases |starts|
  {
    if |starts| > 1 {
      var rest := starts[1..];
      assert rest[0] == starts[0 + 1];
      assert forall i | 0 <= i < |rest| :: rest[i] == starts[i + 1];
      RoundsTakeRequests(script, rest, rest[0], end);
    }
  }

  /** A result is a download only if the answer was a 200 with a readable length within the limit. */
  lemma ReceivedExactly(maximum: nat, r: Response)
    ensures Receive(maximum, r).Some? && Receive(maximum, r).value.Downloaded? <==>
      && r.status == 200 && r.body.Some?
      && GetContentLength(r.header).Some? && GetContentLength(r.header).value <= maximum
    ensures Receive(maximum, r).Some? && Receive(maximum, r).value.Downloaded? ==>
      Receive(maximum, r) == Some(Downloaded(GetContentLength(r.header).value, r.body.value))
    ensures Receive(maximum, r) == None <==>
      && r.status == 200 && r.body.None?
      && GetContentLength(r.header).Some? && GetContentLength(r.header).value <= maximum
  {
  }

  lemma InnerGeometric()
    ensures Geometric(INNER_MULTIPLIER, 0) == 0 && Geometric(INNER_MULTIPLIER, 1) == 1
  {
  }

  // ---------- The two uses ----------

  /** `fetch_file`: three retries, after 20 seconds at first and twice as long each time. */
  const FETCH_TRIES: int := 3
  const FETCH_SLEEP_MS: nat := 20000
  const FETCH_MULTIPLIER: nat := 2
  /** The existence check: ten retries, after half a second at first and four times as long each time. */
  const HEAD_TRIES: int := 10
  const HEAD_SLEEP_MS: nat := 500
  const HEAD_MULTIPLIER: nat := 4

  function FetchFile(script: Script<Response>, maximum: nat): FetchReport {
    Fetch(script, maximum, 0, FETCH_TRIES, FETCH_SLEEP_MS, FETCH_MULTIPLIER)
  }

  function HeadCheck<T>(script: Script<T>): Report<T> {
    Connect(script, 0, HEAD_TRIES, HEAD_SLEEP_MS, HEAD_MULTIPLIER)
  }

  /** `fetch_file` ends with the first answer that is downloaded or decided against, or after four failed rounds. */
  lemma FetchFileResult(script: Script<Response>, maximum: nat) returns (starts: seq<nat>)
    ensures var r := FetchFile(script, maximum);
      && Rounds(script, starts, 0, r.requests) && |starts| <= 4
      && 1 <= r.requests
      && (forall i | 0 <= i < r.requests - 1 :: !EndsFetch(script, maximum, i))
      && var last := script(r.requests - 1);
         && r.result == (if last.Some? then Receive(maximum, last.value) else None)
         && (r.result == None ==> |starts| == 4 && r.outerSlept == 140000)
         && r.innerSlept == 500 * (r.requests - |starts|)
  {
    hide Fetch, Rounds, Receive;
    starts := FetchResult(script, maximum, 0, FETCH_TRIES, FETCH_SLEEP_MS, FETCH_MULTIPLIER);
    assert Geometric(FETCH_MULTIPLIER, 3) == Geometric(2, 3) == 7;
  }

  /** If every request fails, `fetch_file` sends eight of them and sleeps for 140 and 2 seconds. */
  lemma FetchFileFails(script: Script<Response>, maximum: nat)
    requires forall i: nat | i < 8 :: script(i) == None
    ensures FetchFile(script, maximum) == FetchReport(8, 140000, 2000, None)
  {
    hide Fetch, Receive, Rounds;
    var starts := FetchFileResult(script, maximum);
    var r := FetchFile(script, maximum);
    assert r.requests == 2 * |starts| by { RoundsOfTwo(script, starts, 0, r.requests, 8); }
  }

  /** Rounds that start with a failing request are two requests long. */
  lemma {:induction false} RoundsOfTwo(script: Script<Response>, starts: seq<nat>, first: nat, end: nat, bound: nat)
    requires Rounds(script, starts, first, end) && first + 2 * (|starts| - 1) < bound
    requires forall i: nat | i < bound :: script(i) == None
    ensures end == first + 2 * |starts|
    decreases |starts|
  {
    if |starts| > 1 {
      var rest := starts[1..];
      assert rest[0] == starts[0 + 1] == first + 2;
      assert forall i | 0 <= i < |rest| :: rest[i] == starts[i + 1];
      RoundsOfTwo(script, rest, first + 2, end, bound);
    }
  }

  /** `fetch_file` sends at most eight GETs and backs off for at most 140 seconds, plus two in the inner loop. */
  lemma FetchFileBudget(script: Script<Response>, maximum: nat)
    ensures var r := FetchFile(script, maximum);
      r.requests <= 8 && r.outerSlept <= 140000 && r.innerSlept <= 2000
  {
    FetchBudget(script, maximum, 0, FETCH_TRIES, FETCH_SLEEP_MS, FETCH_MULTIPLIER);
    assert Geometric(FETCH_MULTIPLIER, FETCH_TRIES) == Geometric(2, 3) == 7;
  }

  /**
    The existence check sends HEADs until one is answered, at most eleven, and backs off for 500·(4^k - 1)/3
    milliseconds if it sent `k` more after the first.
   */
  lemma HeadCheckExactly<T>(script: Script<T>)
    ensures var r := HeadCheck(script);
      && 1 <= r.requests <= 11 && r.result == script(r.requests - 1)
      && (r.result == None ==> r.requests == 11)
      && (forall i | 0 <= i < r.requests - 1 :: script(i) == None)
      && 3 * r.slept == 500 * (Power(4, r.requests - 1) - 1)
  {
    hide Connect, Geometric, Power;
    ConnectReport(script, 0, HEAD_TRIES, HEAD_SLEEP_MS, HEAD_MULTIPLIER);
    GeometricClosedForm(HEAD_MULTIPLIER, HeadCheck(script).requests - 1);
  }

  /** If every request fails, the budget is used up to the last request and the last millisecond. */
  lemma BudgetIsReached<T>(script: Script<T>, first: nat, tries: int, sleep: nat, multiplier: nat)
    requires forall i | first <= i <= first + Budget(tries) :: script(i) == None
    ensures Connect(script, first, tries, sleep, multiplier)
         == Report(Budget(tries) + 1, sleep * Geometric(multiplier, Budget(tries)), None)
  {
    ConnectReport(script, first, tries, sleep, multiplier);
  }

  /** The longest sleep ever computed; a `Duration` holds 2^64 seconds. */
  lemma {:induction false} SleepAfter(sleep: nat, multiplier: nat, k: nat)
    ensures sleep * Power(multiplier, k) == Backoff(sleep, multiplier, k)
    decreases k
  {
    if k != 0 {
      SleepAfter(sleep * multiplier, multiplier, k - 1);
      MultiplyAssociates(sleep, multiplier, Power(multiplier, k - 1));
    }
  }

  /** The sleep argument after `k` retries. */
  function Backoff(sleep: nat, multiplier: nat, k: nat): nat
    decreases k
  {
    if k == 0 then sleep else Backoff(sleep * multiplier, multiplier, k - 1)
  }

  lemma NoDurationOverflows(k: nat)
    ensures k <= FETCH_TRIES ==> Backoff(FETCH_SLEEP_MS, FETCH_MULTIPLIER, k) <= 160000
    ensures k <= HEAD_TRIES ==> Backoff(HEAD_SLEEP_MS, HEAD_MULTIPLIER, k) <= 524288000
    ensures 524288000 < 1000 * TWO64
  {
    SleepAfter(FETCH_SLEEP_MS, FETCH_MULTIPLIER, k);
    SleepAfter(HEAD_SLEEP_MS, HEAD_MULTIPLIER, k);
    if k <= 3 {
      PowerMonotone(2, k, 3);
      assert Power(2, 3) == 8;
    }
    if k <= 10 {
      PowerMonotone(4, k, 10);
      assert Power(4, 10) == 1048576;
    }
  }

  lemma {:induction false} PowerMonotone(m: nat, j: nat, k: nat)
    requires 0 < m && j <= k
    ensures 1 <= Power(m, j) <= Power(m, k)
    decreases k
  {
    if j != 0 {
      PowerMonotone(m, j - 1, k - 1);
      MultiplyMonotone(m, Power(m, j - 1), Power(m, k - 1));
      MultiplyMonotone(m, 1, Power(m, j - 1));
    } else if k != 0 {
      PowerMonotone(m, 0, k - 1);
      MultiplyMonotone(m, 1, Power(m, k - 1));
    }
  }
}
