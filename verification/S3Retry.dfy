/** The retry loops of `put` and `delete` in paur-s3/src/lib.rs, over any stream of responses. */
module S3Retry {
  import opened Options
  import opened Text
  import opened Utf8

  /** What one request gives: an HTTP status with the text of its body, or an error of the transport. */
  datatype Response = Status(code: nat, body: string) | NetworkError

  /** The delays before the retries, in milliseconds; one request more than delays. */
  const RETRY_DELAYS: seq<nat> := [1000, 2000, 5000, 15000]
  const ATTEMPTS: nat := 5

  const BODY_LIMIT: nat := 512

  predicate IsSuccess(code: nat) {
    200 <= code <= 299
  }

  /** Statuses worth a retry: server errors, 408 and 429. */
  predicate IsTransient(code: nat) {
    500 <= code <= 599 || code == 408 || code == 429
  }

  // -------- the body --------

  /** How many characters the first `n` bytes of the text's UTF-8 form hold, if they end with a character. */
  function CharsIn(s: string, n: nat): (r: Option<nat>)
    ensures r.Some? ==> r.value <= |s|
  {
    if n == 0 then Some(0)
    else if s == "" || |Encode(s[0])| > n then None
    else
      match CharsIn(s[1..], n - |Encode(s[0])|)
      case None => None
      case Some(k) => Some(k + 1)
  }

  /** `truncate`: at most `max` bytes and an ellipsis. `None` is the panic of slicing inside a character. */
  function Truncate(s: string, max: nat): Option<string> {
    if |EncodeAll(s)| <= max then Some(s)
    else
      match CharsIn(s, max)
      case None => None
      case Some(k) => Some(s[..k] + "…")
  }

  /** Byte `n` of the text is inside a character. */
  predicate InsideCharacter(s: string, n: nat) {
    n < |EncodeAll(s)| && IsContinuation(EncodeAll(s)[n])
  }

  lemma ContinuationsOf(c: char)
    ensures !IsContinuation(Encode(c)[0])
    ensures forall i | 0 < i < |Encode(c)| :: IsContinuation(Encode(c)[i])
  {
  }

  lemma {:induction false} CharsInIff(s: string, n: nat)
    requires n < |EncodeAll(s)|
    ensures CharsIn(s, n).None? <==> InsideCharacter(s, n)
  {
    var first := Encode(s[0]);
    ContinuationsOf(s[0]);
    if n >= |first| {
      CharsInIff(s[1..], n - |first|);
    }
  }

  /** What is cut off ends at a byte that starts a character, and nowhere else can it be cut. */
  lemma TruncatePanicsIff(s: string, max: nat)
    ensures Truncate(s, max).None? <==> InsideCharacter(s, max)
  {
    if |EncodeAll(s)| > max {
      CharsInIff(s, max);
    }
  }

  lemma {:induction false} EncodeConcat(a: string, b: string)
    ensures EncodeAll(a + b) == EncodeAll(a) + EncodeAll(b)
  {
    if a == "" {
      assert a + b == b;
    } else {
      assert (a + b)[1..] == a[1..] + b;
      EncodeConcat(a[1..], b);
      Assoc(Encode(a[0]), EncodeAll(a[1..]), EncodeAll(b));
    }
  }

  /** What is kept are whole characters, and exactly the given number of bytes. */
  lemma {:induction false} CharsInBytes(s: string, n: nat)
    requires CharsIn(s, n).Some?
    ensures |EncodeAll(s[..CharsIn(s, n).value])| == n
  {
    if n > 0 {
      CharsInBytes(s[1..], n - |Encode(s[0])|);
      var k := CharsIn(s, n).value;
      assert s[..k][1..] == s[1..][..k - 1];
    }
  }

  /** `text` is `s` if that has at most 512 bytes, and otherwise its first 512 bytes and an ellipsis. */
  predicate Cut(s: string, text: string) {
    if |EncodeAll(s)| <= 512 then text == s
    else EncodeAll(text) == EncodeAll(s)[..512] + EncodeAll("…")
  }

  lemma TruncateIs(s: string)
    ensures Truncate(s, 512).Some? ==> Cut(s, Truncate(s, 512).value)
  {
    if |EncodeAll(s)| > 512 && CharsIn(s, 512).Some? {
      var k := CharsIn(s, 512).value;
      CharsInBytes(s, 512);
      assert s == s[..k] + s[k..];
      EncodeConcat(s[..k], s[k..]);
      EncodeConcat(s[..k], "…");
    }
  }

  // -------- the contract --------

  /** A sampled factor of the jitter. */
  type Scale = x: real | 0.7 <= x < 1.3 witness 1.0

  /** A base delay times the factor, truncated to whole milliseconds. */
  function Jittered(base: nat, scale: Scale): nat {
    NotNegative(base as real, scale);
    (base as real * scale).Floor
  }

  lemma NotNegative(base: real, scale: real)
    requires base >= 0.0 && scale >= 0.0
    ensures base * scale >= 0.0
  {
  }

  datatype Outcome = Done | Permanent(status: nat, body: string) | Transport | Exhausted | Panicked

  /** The statuses a request accepts as its end. */
  predicate PutAccepts(code: nat) {
    200 <= code <= 299
  }

  predicate DeleteAccepts(code: nat) {
    200 <= code <= 299 || code == 404
  }

  /** A response after which the loop goes on: its status is transient, and its body was truncated. */
  predicate Retryable(r: Response) {
    r.Status? && IsTransient(r.code) && Truncate(r.body, BODY_LIMIT).Some?
  }

  /** The response at `i` is the first one that ends the loop. */
  ghost predicate FirstFinal(responses: nat -> Response, i: nat) {
    !Retryable(responses(i)) && forall j | 0 <= j < i :: Retryable(responses(j))
  }

  /** How a final response ends the request; the body is read before the status is looked at again. */
  function EndsAs(accepts: nat -> bool, r: Response): Outcome {
    match r
    case NetworkError => Transport
    case Status(code, body) =>
      if accepts(code) then Done
      else
        match Truncate(body, BODY_LIMIT)
        case None => Panicked
        case Some(text) => Permanent(code, text)
  }

  /** The total sleep before request number `n` (from 0). */
  function Slept(scales: nat -> Scale, n: nat): nat
    requires n < ATTEMPTS
  {
    if n == 0 then 0 else Slept(scales, n - 1) + Jittered(RETRY_DELAYS[n - 1], scales(n - 1))
  }

  /**
   What both loops do: the request ends with the first final response if that is among the first
   five, and is exhausted after five requests otherwise.
   */
  ghost predicate Follows(accepts: nat -> bool, responses: nat -> Response, scales: nat -> Scale,
                          outcome: Outcome, sent: nat, slept: nat) {
    && 1 <= sent <= ATTEMPTS
    && (if outcome.Exhausted?
        then sent == ATTEMPTS && forall i | 0 <= i < ATTEMPTS :: Retryable(responses(i))
        else FirstFinal(responses, sent - 1) && outcome == EndsAs(accepts, responses(sent - 1)))
    && slept == Slept(scales, sent - 1)
  }

  /** Retried by its status alone, as the retry policy has it. */
  predicate TransientStatus(r: Response) {
    r.Status? && (r.code == 408 || r.code == 429 || 500 <= r.code <= 599)
  }

  /**
   The end of a request in numbers. Every response before the last one had a status that is
   retried; a put accepts 200 to 299, a delete also 404.
   */
  ghost predicate EndsByNumbers(responses: nat -> Response, delete: bool, outcome: Outcome, sent: nat) {
    && 1 <= sent <= 5
    && (forall i | 0 <= i < sent - 1 :: TransientStatus(responses(i)))
    && var last := responses(sent - 1);
       match outcome
       case Done => last.Status? && (200 <= last.code <= 299 || (delete && last.code == 404))
       case Permanent(status, body) =>
         && last.Status? && last.code == status
         && !(200 <= status <= 299) && !(delete && status == 404)
         && !(status == 408 || status == 429 || 500 <= status <= 599)
         && Cut(last.body, body)
       case Transport => last.NetworkError?
       case Exhausted => sent == 5 && TransientStatus(last)
       case Panicked =>
         && last.Status? && !(200 <= last.code <= 299) && !(delete && last.code == 404)
         && InsideCharacter(last.body, 512)
  }

  /** How long a request that sent so many times can have slept, in milliseconds. */
  predicate SleptInBounds(sent: nat, slept: nat) {
    match sent
    case 1 => slept == 0
    case 2 => 700 <= slept <= 1299
    case 3 => 2100 <= slept <= 3898
    case 4 => 5600 <= slept <= 10397
    case 5 => 16100 <= slept <= 29896
    case _ => false
  }

  method Put(responses: nat -> Response, scales: nat -> Scale) returns (outcome: Outcome, sent: nat, slept: nat)
    ensures Follows(PutAccepts, responses, scales, outcome, sent, slept)
    ensures EndsByNumbers(responses, false, outcome, sent)
    ensures outcome.Exhausted? ==> 16100 <= slept <= 29896
    ensures SleptInBounds(sent, slept)
    ensures AsPromised(PutAccepts, responses, outcome, sent) <==> !outcome.Panicked?
    ensures outcome.Panicked? <==> ReadsABreaker(PutAccepts, responses)
  {
    outcome, sent, slept := PutLoop(responses, scales);
    AfterLoop(false, PutAccepts, responses, scales, outcome, sent, slept);
  }

  method PutLoop(responses: nat -> Response, scales: nat -> Scale) returns (outcome: Outcome, sent: nat, slept: nat)
    ensures Follows(PutAccepts, responses, scales, outcome, sent, slept)
  {
    var attempt := 0;
    sent, slept := 0, 0;
    while true
      invariant attempt == sent < ATTEMPTS
      invariant forall i | 0 <= i < sent :: Retryable(responses(i))
      invariant slept == Slept(scales, attempt)
      decreases ATTEMPTS - attempt
    {
      var res := responses(attempt);
      sent := sent + 1;
      if res.NetworkError? {
        outcome := Transport;
        break;
      }
      if IsSuccess(res.code) {
        outcome := Done;
        break;
      }
      var text := Truncate(res.body, BODY_LIMIT);
      if text.None? {
        outcome := Panicked;
        break;
      }
      if !IsTransient(res.code) {
        outcome := Permanent(res.code, text.value);
        break;
      }
      if attempt >= |RETRY_DELAYS| {
        outcome := Exhausted;
        break;
      }
      slept := slept + Jittered(RETRY_DELAYS[attempt], scales(attempt));
      attempt := attempt + 1;
    }
  }

  method Delete(responses: nat -> Response, scales: nat -> Scale) returns (outcome: Outcome, sent: nat, slept: nat)
    ensures Follows(DeleteAccepts, responses, scales, outcome, sent, slept)
    ensures EndsByNumbers(responses, true, outcome, sent)
    ensures outcome.Exhausted? ==> 16100 <= slept <= 29896
    ensures SleptInBounds(sent, slept)
    ensures AsPromised(DeleteAccepts, responses, outcome, sent) <==> !outcome.Panicked?
    ensures outcome.Panicked? <==> ReadsABreaker(DeleteAccepts, responses)
  {
    outcome, sent, slept := DeleteLoop(responses, scales);
    AfterLoop(true, DeleteAccepts, responses, scales, outcome, sent, slept);
  }

  method DeleteLoop(responses: nat -> Response, scales: nat -> Scale) returns (outcome: Outcome, sent: nat, slept: nat)
    ensures Follows(DeleteAccepts, responses, scales, outcome, sent, slept)
  {
    var attempt := 0;
    sent, slept := 0, 0;
    while true
      invariant attempt == sent < ATTEMPTS
      invariant forall i | 0 <= i < sent :: Retryable(responses(i))
      invariant slept == Slept(scales, attempt)
      decreases ATTEMPTS - attempt
    {
      var res := responses(attempt);
      sent := sent + 1;
      if res.NetworkError? {
        outcome := Transport;
        break;
      }
      if IsSuccess(res.code) || res.code == 404 {
        outcome := Done;
        break;
      }
      var text := Truncate(res.body, BODY_LIMIT);
      if text.None? {
        outcome := Panicked;
        break;
      }
      if !IsTransient(res.code) {
        outcome := Permanent(res.code, text.value);
        break;
      }
      if attempt >= |RETRY_DELAYS| {
        outcome := Exhausted;
        break;
      }
      slept := slept + Jittered(RETRY_DELAYS[attempt], scales(attempt));
      attempt := attempt + 1;
    }
  }

  // -------- what the policy promises --------

  /** The policy reads response `i`: it is one of five, and all before it are transient. */
  ghost predicate Reads(responses: nat -> Response, i: nat) {
    i < ATTEMPTS && forall j | 0 <= j < i :: TransientStatus(responses(j))
  }

  /** Success, permanent failure and exhaustion depend on the statuses only. */
  ghost predicate AsPromised(accepts: nat -> bool, responses: nat -> Response, outcome: Outcome, sent: nat) {
    && 1 <= sent && Reads(responses, sent - 1)
    && match outcome
       case Done => responses(sent - 1).Status? && accepts(responses(sent - 1).code)
       case Permanent(status, body) =>
         var r := responses(sent - 1);
         r.Status? && r.code == status && !accepts(status) && !TransientStatus(r)
       case Transport => responses(sent - 1).NetworkError?
       case Exhausted => sent == ATTEMPTS && TransientStatus(responses(sent - 1))
       case Panicked => false
  }

  /** A response that is not accepted and whose body has a character across byte 512. */
  predicate Breaks(accepts: nat -> bool, r: Response) {
    r.Status? && !accepts(r.code) && InsideCharacter(r.body, 512)
  }

  /** The policy reads such a response. */
  ghost predicate ReadsABreaker(accepts: nat -> bool, responses: nat -> Response) {
    exists i: nat :: Reads(responses, i) && Breaks(accepts, responses(i))
  }

  /** Both kinds of request end on every status that is not transient. */
  ghost predicate AcceptsNoTransient(accepts: nat -> bool) {
    forall code: nat :: accepts(code) ==> code != 408 && code != 429 && !(500 <= code <= 599)
  }

  lemma RetryableIff(accepts: nat -> bool, r: Response)
    requires AcceptsNoTransient(accepts)
    ensures Retryable(r) <==> TransientStatus(r) && !Breaks(accepts, r)
  {
    if r.Status? {
      TruncatePanicsIff(r.body, BODY_LIMIT);
    }
  }

  /** As long as no body breaks the loop, what it retries is what the policy retries. */
  lemma ReadsWhatItSent(accepts: nat -> bool, responses: nat -> Response, scales: nat -> Scale, outcome: Outcome, sent: nat, slept: nat)
    requires AcceptsNoTransient(accepts) && Follows(accepts, responses, scales, outcome, sent, slept)
    ensures Reads(responses, sent - 1)
    ensures forall i | 0 <= i < sent - 1 :: Retryable(responses(i)) && !Breaks(accepts, responses(i))
    ensures outcome.Panicked? <==> Breaks(accepts, responses(sent - 1))
  {
    forall i | 0 <= i < sent
      ensures Retryable(responses(i)) <==> TransientStatus(responses(i)) && !Breaks(accepts, responses(i))
    {
      RetryableIff(accepts, responses(i));
    }
    var last := responses(sent - 1);
    if last.Status? {
      TruncatePanicsIff(last.body, BODY_LIMIT);
    }
  }

  /**
   A put or delete keeps the retry policy's promise exactly when no response that the policy
   reads and does not accept has a body with a character across byte 512; otherwise the first of
   these makes the request panic.
   */
  lemma PromiseKeptIff(accepts: nat -> bool, responses: nat -> Response, scales: nat -> Scale, outcome: Outcome, sent: nat, slept: nat)
    requires AcceptsNoTransient(accepts) && Follows(accepts, responses, scales, outcome, sent, slept)
    ensures AsPromised(accepts, responses, outcome, sent) <==> !outcome.Panicked?
    ensures outcome.Panicked? <==> ReadsABreaker(accepts, responses)
  {
    ReadsWhatItSent(accepts, responses, scales, outcome, sent, slept);
    RetryableIff(accepts, responses(sent - 1));
    if i: nat :| Reads(responses, i) && Breaks(accepts, responses(i)) {
      assert i >= sent - 1;
      if i > sent - 1 {
        assert TransientStatus(responses(sent - 1));
        assert outcome.Panicked?;
      }
    }
  }

  lemma AfterLoop(delete: bool, accepts: nat -> bool, responses: nat -> Response, scales: nat -> Scale, outcome: Outcome, sent: nat, slept: nat)
    requires accepts == if delete then DeleteAccepts else PutAccepts
    requires Follows(accepts, responses, scales, outcome, sent, slept)
    ensures EndsByNumbers(responses, delete, outcome, sent)
    ensures AsPromised(accepts, responses, outcome, sent) <==> !outcome.Panicked?
    ensures outcome.Panicked? <==> ReadsABreaker(accepts, responses)
    ensures outcome.Exhausted? ==> 16100 <= slept <= 29896
    ensures SleptInBounds(sent, slept)
  {
    SleepBounds(scales, sent);
    ReadsWhatItSent(accepts, responses, scales, outcome, sent, slept);
    if responses(sent - 1).Status? {
      TruncateIs(responses(sent - 1).body);
    }
    PromiseKeptIff(accepts, responses, scales, outcome, sent, slept);
  }

  function Repeated(c: char, n: nat): string {
    if n == 0 then "" else [c] + Repeated(c, n - 1)
  }

  lemma {:induction false} AcrossByte(n: nat, c: char)
    requires |Encode(c)| > 1
    ensures |EncodeAll(Repeated('a', n) + [c])| == n + |Encode(c)|
    ensures InsideCharacter(Repeated('a', n) + [c], n + 1)
  {
    var s := Repeated('a', n) + [c];
    ContinuationsOf(c);
    if n == 0 {
      assert s == [c] && EncodeAll(s) == Encode(c) + EncodeAll("");
    } else {
      AcrossByte(n - 1, c);
      assert s == ['a'] + (Repeated('a', n - 1) + [c]);
      assert s[1..] == Repeated('a', n - 1) + [c];
    }
  }

  /** A 503 whose body has an 'é' across byte 512 ends a put that the next response would have completed. */
  lemma PanicInsteadOfRetry(scales: nat -> Scale, outcome: Outcome, sent: nat, slept: nat)
    requires Follows(PutAccepts, (i: nat) => if i == 0 then Status(503, Repeated('a', 511) + "é") else Status(200, ""),
                     scales, outcome, sent, slept)
    ensures outcome == Panicked && sent == 1
  {
    var responses := (i: nat) => if i == 0 then Status(503, Repeated('a', 511) + "é") else Status(200, "");
    AcrossByte(511, 'é');
    TruncatePanicsIff(responses(0).body, BODY_LIMIT);
    assert !Retryable(responses(0));
  }

  // -------- what else follows --------

  lemma OnlyOneFirst(responses: nat -> Response, i: nat, j: nat)
    requires FirstFinal(responses, i) && FirstFinal(responses, j)
    ensures i == j
  {
    assert i < j ==> Retryable(responses(i));
    assert j < i ==> Retryable(responses(j));
  }

  /**
   Exhaustion means that all five responses are transient; success, that the first response that
   ends the loop comes within five and is accepted; and a network error ends the request at once.
   */
  lemma FollowsMeans(accepts: nat -> bool, responses: nat -> Response, scales: nat -> Scale, outcome: Outcome, sent: nat, slept: nat)
    requires Follows(accepts, responses, scales, outcome, sent, slept)
    ensures outcome.Exhausted? <==> forall i | 0 <= i < ATTEMPTS :: Retryable(responses(i))
    ensures outcome.Done? <==>
              exists i: nat :: i < ATTEMPTS && FirstFinal(responses, i) && responses(i).Status? && accepts(responses(i).code)
    ensures forall i | 0 <= i < sent - 1 :: !responses(i).NetworkError?
    ensures outcome == Transport <==> responses(sent - 1).NetworkError?
  {
    assert !outcome.Exhausted? ==> !Retryable(responses(sent - 1));
    assert forall i | 0 <= i < sent - 1 :: Retryable(responses(i));
    if i: nat :| i < ATTEMPTS && FirstFinal(responses, i) && responses(i).Status? && accepts(responses(i).code) {
      assert !Retryable(responses(i));
      OnlyOneFirst(responses, i, sent - 1);
    }
  }

  lemma JitterBounds(scale: Scale)
    ensures 700 <= Jittered(1000, scale) <= 1299
    ensures 1400 <= Jittered(2000, scale) <= 2599
    ensures 3500 <= Jittered(5000, scale) <= 6499
    ensures 10500 <= Jittered(15000, scale) <= 19499
  {
  }

  /** The delays before each request together, whatever the jitter. */
  lemma {:induction false} SleepBounds(scales: nat -> Scale, sent: nat)
    requires 1 <= sent <= 5
    ensures SleptInBounds(sent, Slept(scales, sent - 1))
  {
    if sent > 1 {
      SleepBounds(scales, sent - 1);
      JitterBounds(scales(sent - 2));
    }
  }

  /** Both bounds are reached. */
  lemma BoundsAreTight()
    ensures Slept(_ => 0.7, 4) == 16100
    ensures Slept(_ => 1.29999, 4) == 29896
  {
    SleptAt(0.7);
    SleptAt(1.29999);
    assert (1000.0 * 1.29999).Floor == 1299 && (2000.0 * 1.29999).Floor == 2599;
    assert (5000.0 * 1.29999).Floor == 6499 && (15000.0 * 1.29999).Floor == 19499;
    assert (1000.0 * 0.7).Floor == 700 && (2000.0 * 0.7).Floor == 1400;
    assert (5000.0 * 0.7).Floor == 3500 && (15000.0 * 0.7).Floor == 10500;
  }

  lemma SleptAt(scale: Scale)
    ensures Slept(_ => scale, 4) == Jittered(1000, scale) + Jittered(2000, scale) + Jittered(5000, scale) + Jittered(15000, scale)
  {
    var scales: nat -> Scale := _ => scale;
    assert Slept(scales, 1) == Jittered(1000, scale);
    assert Slept(scales, 2) == Slept(scales, 1) + Jittered(2000, scale);
    assert Slept(scales, 3) == Slept(scales, 2) + Jittered(5000, scale);
  }
}
