/**
 The command token bucket (rflink/app.go).

 Tokens are exact reals and time is in seconds. Each operation takes the mutex, reads the
 clock inside it and refills; a command then takes a token if it can, a status read does not.
 A run is the list of operations with their clock readings.
 */
module TokenBucket {
  datatype Bucket = Bucket(tokens: real, last: real)

  /** An operation at a clock reading: a command asking for a token, or a status read. */
  datatype Op = Command(at: real) | Status(at: real)

  /**
   What limit tokens a second add up to in d seconds. It is the product d * limit, written as
   limit additions so that the run proofs stay linear; DripIsProduct says so.
   */
  function Drip(limit: int, d: real): real
    decreases limit
  {
    if limit <= 0 then 0.0 else d + Drip(limit - 1, d)
  }

  lemma {:induction false} DripIsProduct(limit: int, d: real)
    requires limit >= 0
    ensures Drip(limit, d) == d * limit as real
  {
    if limit <= 0 {
    } else {
      DripIsProduct(limit - 1, d);
      assert limit as real == (limit - 1) as real + 1.0;
    }
  }

  lemma {:induction false} DripAdds(limit: int, d: real, e: real)
    ensures Drip(limit, d) + Drip(limit, e) == Drip(limit, d + e)
  {
    if limit <= 0 {
    } else {
      DripAdds(limit - 1, d, e);
    }
  }

  lemma {:induction false} DripNonNegative(limit: int, d: real)
    requires d >= 0.0
    ensures Drip(limit, d) >= 0.0
  {
    if limit <= 0 {
    } else {
      DripNonNegative(limit - 1, d);
    }
  }

  lemma DripMonotone(limit: int, d: real, e: real)
    requires d <= e
    ensures Drip(limit, d) <= Drip(limit, e)
  {
    DripAdds(limit, d, e - d);
    DripNonNegative(limit, e - d);
  }

  lemma {:induction false} DripZero(limit: int)
    ensures Drip(limit, 0.0) == 0.0
  {
    if limit <= 0 {
    } else {
      DripZero(limit - 1);
    }
  }

  /** refillCmdTokensLocked: add what has dripped in since the last refill, clamp at the limit. */
  function Refill(limit: int, b: Bucket, now: real): Bucket {
    var tokens := b.tokens + Drip(limit, now - b.last);
    Bucket(if tokens > limit as real then limit as real else tokens, now)
  }

  predicate Grants(limit: int, b: Bucket, op: Op) {
    op.Command? && Refill(limit, b, op.at).tokens >= 1.0
  }

  function Apply(limit: int, b: Bucket, op: Op): Bucket {
    var r := Refill(limit, b, op.at);
    if Grants(limit, b, op) then r.(tokens := r.tokens - 1.0) else r
  }

  /** The bucket after the first n operations, started full at time start. */
  function Exec(limit: int, start: real, ops: seq<Op>, n: nat): Bucket
    requires n <= |ops|
  {
    if n == 0 then Bucket(limit as real, start)
    else Apply(limit, Exec(limit, start, ops, n - 1), ops[n - 1])
  }

  /** Clock readings never go back. */
  ghost predicate Timed(start: real, ops: seq<Op>) {
    forall i :: 0 <= i <= |ops| ==> Instant(start, ops, if i == 0 then 0 else i - 1) <= Instant(start, ops, i)
  }

  /** Instant 0 is the start, instant i is the clock reading of operation i - 1. */
  function Instant(start: real, ops: seq<Op>, i: nat): real
    requires i <= |ops|
  {
    if i == 0 then start else ops[i - 1].at
  }

  /** Whether operation i of the run is granted a token. */
  predicate Granted(limit: int, start: real, ops: seq<Op>, i: nat)
    requires i < |ops|
  {
    Grants(limit, Exec(limit, start, ops, i), ops[i])
  }

  /** How many of the operations lo .. hi-1 are granted. */
  function GrantCount(limit: int, start: real, ops: seq<Op>, lo: nat, hi: nat): nat
    requires lo <= hi <= |ops|
  {
    if lo == hi then 0
    else GrantCount(limit, start, ops, lo, hi - 1) + if Granted(limit, start, ops, hi - 1) then 1 else 0
  }

  // ----- The exact value of the bucket -----

  /**
   What the bucket would hold at the refill of operation n if it had been full at instant i:
   a full bucket, plus the drip since then, minus the grants since then.
   */
  function FullSince(limit: int, start: real, ops: seq<Op>, i: nat, n: nat): real
    requires i <= n + 1 <= |ops|
  {
    limit as real + Drip(limit, ops[n].at - Instant(start, ops, i))
    - GrantCount(limit, start, ops, if i == 0 then 0 else i - 1, n) as real
  }

  /** One candidate for the start and one for each refill up to and including that of operation n. */
  function Candidates(limit: int, start: real, ops: seq<Op>, n: nat): (c: seq<real>)
    requires n < |ops|
  {
    seq(n + 2, i requires 0 <= i < n + 2 => FullSince(limit, start, ops, i, n))
  }

  ghost predicate IsMinimum(v: real, c: seq<real>) {
    v in c && forall i :: 0 <= i < |c| ==> v <= c[i]
  }

  /** The tokens operation n finds after its refill. */
  function Found(limit: int, start: real, ops: seq<Op>, n: nat): real
    requires n < |ops|
  {
    Refill(limit, Exec(limit, start, ops, n), ops[n].at).tokens
  }

  /** What drips in between operations n-1 and n, less what operation n-1 took. */
  function Shift(limit: int, start: real, ops: seq<Op>, n: nat): real
    requires 0 < n < |ops|
  {
    Drip(limit, ops[n].at - ops[n - 1].at) - if Granted(limit, start, ops, n - 1) then 1.0 else 0.0
  }

  lemma CandidatesStep(limit: int, start: real, ops: seq<Op>, n: nat)
    requires 0 < n < |ops|
    ensures var c, d := Candidates(limit, start, ops, n - 1), Candidates(limit, start, ops, n);
            && d[n + 1] == limit as real
            && forall i :: 0 <= i < |c| ==> d[i] == c[i] + Shift(limit, start, ops, n)
  {
    var c, d := Candidates(limit, start, ops, n - 1), Candidates(limit, start, ops, n);
    DripZero(limit);
    forall i | 0 <= i < |c| ensures d[i] == c[i] + Shift(limit, start, ops, n) {
      DripAdds(limit, ops[n - 1].at - Instant(start, ops, i), ops[n].at - ops[n - 1].at);
    }
  }

  /** Shifting every candidate and adding a full bucket moves the minimum like a clamped refill. */
  lemma MinimumStep(c: seq<real>, v: real, d: seq<real>, w: real, shift: real, full: real)
    requires IsMinimum(v, c) && |d| == |c| + 1 && d[|c|] == full
    requires forall i :: 0 <= i < |c| ==> d[i] == c[i] + shift
    requires w == if v + shift > full then full else v + shift
    ensures IsMinimum(w, d)
  {
    var m :| 0 <= m < |c| && c[m] == v;
    assert d[m] == v + shift;
  }

  lemma FoundStep(limit: int, start: real, ops: seq<Op>, n: nat)
    requires 0 < n < |ops|
    ensures var w := Found(limit, start, ops, n - 1) + Shift(limit, start, ops, n);
            Found(limit, start, ops, n) == if w > limit as real then limit as real else w
  {}

  lemma FirstFound(limit: int, start: real, ops: seq<Op>)
    requires limit > 0 && ops != [] && Timed(start, ops)
    ensures Found(limit, start, ops, 0) == limit as real
    ensures IsMinimum(limit as real, Candidates(limit, start, ops, 0))
  {
    assert start == Instant(start, ops, 0) <= Instant(start, ops, 1);
    DripNonNegative(limit, ops[0].at - start);
    DripZero(limit);
    assert Candidates(limit, start, ops, 0)[1] == limit as real;
  }

  /**
   Exactness: after the refill of operation n the bucket holds the minimum, over the start and
   every refill instant s so far, of limit * (1 + (t - s)) minus the grants since s.
   */
  lemma {:induction false} TokensAreTheMinimum(limit: int, start: real, ops: seq<Op>, n: nat)
    requires limit > 0 && n < |ops| && Timed(start, ops)
    ensures IsMinimum(Found(limit, start, ops, n), Candidates(limit, start, ops, n))
  {
    if n == 0 {
      FirstFound(limit, start, ops);
    } else {
      TokensAreTheMinimum(limit, start, ops, n - 1);
      FoundStep(limit, start, ops, n);
      CandidatesStep(limit, start, ops, n);
      MinimumStep(Candidates(limit, start, ops, n - 1), Found(limit, start, ops, n - 1),
                  Candidates(limit, start, ops, n), Found(limit, start, ops, n),
                  Shift(limit, start, ops, n), limit as real);
    }
  }

  /** A command is refused exactly when that minimum is below one token. */
  lemma RefusedIff(limit: int, start: real, ops: seq<Op>, n: nat)
    requires limit > 0 && n < |ops| && Timed(start, ops) && ops[n].Command?
    ensures !Granted(limit, start, ops, n) <==>
            exists i :: 0 <= i <= n + 1 && Candidates(limit, start, ops, n)[i] < 1.0
  {
    TokensAreTheMinimum(limit, start, ops, n);
  }

  lemma {:induction false} NeverNegative(limit: int, start: real, ops: seq<Op>, n: nat)
    requires limit > 0 && n < |ops| && Timed(start, ops)
    ensures 0.0 <= Found(limit, start, ops, n) <= limit as real
  {
    if n == 0 {
      FirstFound(limit, start, ops);
    } else {
      NeverNegative(limit, start, ops, n - 1);
      assert Instant(start, ops, n) <= Instant(start, ops, n + 1);
      DripNonNegative(limit, ops[n].at - ops[n - 1].at);
      FoundStep(limit, start, ops, n);
    }
  }

  lemma FoundAtMost(limit: int, start: real, ops: seq<Op>, lo: nat, hi: nat)
    requires limit > 0 && lo <= hi < |ops| && Timed(start, ops)
    ensures Found(limit, start, ops, hi) <= FullSince(limit, start, ops, lo + 1, hi)
  {
    TokensAreTheMinimum(limit, start, ops, hi);
    assert Candidates(limit, start, ops, hi)[lo + 1] == FullSince(limit, start, ops, lo + 1, hi);
  }

  lemma WindowDrip(limit: int, start: real, ops: seq<Op>, lo: nat, hi: nat)
    requires limit > 0 && lo <= hi < |ops| && Timed(start, ops)
    ensures GrantCount(limit, start, ops, lo, hi + 1) as real
            <= limit as real + Drip(limit, ops[hi].at - ops[lo].at)
  {
    NeverNegative(limit, start, ops, hi);
    FoundAtMost(limit, start, ops, lo, hi);
    var before := GrantCount(limit, start, ops, lo, hi);
    assert GrantCount(limit, start, ops, lo, hi + 1) == before + if Granted(limit, start, ops, hi) then 1 else 0;
  }

  /** No window of length T, ends included, sees more than limit + limit * T grants. */
  lemma WindowBound(limit: int, start: real, ops: seq<Op>, lo: nat, hi: nat, length: real)
    requires limit > 0 && lo <= hi < |ops| && Timed(start, ops)
    requires length == ops[hi].at - ops[lo].at
    ensures GrantCount(limit, start, ops, lo, hi + 1) as real <= limit as real + length * limit as real
  {
    WindowDrip(limit, start, ops, lo, hi);
    DripIsProduct(limit, length);
  }

  // ----- Status reads are invisible -----

  /** The commands among the first n operations. */
  function Commands(ops: seq<Op>, n: nat): (cs: seq<Op>)
    requires n <= |ops|
    ensures |cs| <= n
  {
    if n == 0 then []
    else Commands(ops, n - 1) + if ops[n - 1].Command? then [ops[n - 1]] else []
  }

  /** The answers given to the commands among the first n operations, in order. */
  function Answers(limit: int, start: real, ops: seq<Op>, n: nat): seq<bool>
    requires n <= |ops|
  {
    if n == 0 then []
    else Answers(limit, start, ops, n - 1) +
         if ops[n - 1].Command? then [Granted(limit, start, ops, n - 1)] else []
  }

  /** What comes later changes nothing about the first n operations. */
  lemma {:induction false} PrefixDecides(limit: int, start: real, ops: seq<Op>, more: seq<Op>, n: nat)
    requires n <= |ops|
    ensures Exec(limit, start, ops + more, n) == Exec(limit, start, ops, n)
    ensures Answers(limit, start, ops + more, n) == Answers(limit, start, ops, n)
  {
    if n == 0 {
    } else {
      PrefixDecides(limit, start, ops, more, n - 1);
    }
  }

  lemma {:induction false} PrefixCounts(limit: int, start: real, ops: seq<Op>, more: seq<Op>, lo: nat, hi: nat)
    requires lo <= hi <= |ops|
    ensures GrantCount(limit, start, ops + more, lo, hi) == GrantCount(limit, start, ops, lo, hi)
  {
    if lo == hi {
    } else {
      PrefixCounts(limit, start, ops, more, lo, hi - 1);
      PrefixDecides(limit, start, ops, more, hi - 1);
    }
  }

  /** b has been refilled since, but holds what a refill of a at that moment would give. */
  ghost predicate Lags(limit: int, a: Bucket, b: Bucket) {
    a.last <= b.last && a.tokens <= limit as real && Refill(limit, a, b.last) == b
  }

  lemma LagsSelf(limit: int, start: real)
    ensures Lags(limit, Bucket(limit as real, start), Bucket(limit as real, start))
  {
    DripZero(limit);
  }

  lemma LagsStep(limit: int, a: Bucket, b: Bucket, op: Op)
    requires limit > 0 && Lags(limit, a, b) && b.last <= op.at
    ensures Grants(limit, a, op) == Grants(limit, b, op)
    ensures Lags(limit, if op.Command? then Apply(limit, a, op) else a, Apply(limit, b, op))
  {
    DripAdds(limit, b.last - a.last, op.at - b.last);
    DripNonNegative(limit, op.at - b.last);
    DripZero(limit);
  }

  /** Dropping every status read from a run changes no answer given to a command. */
  lemma {:induction false} StatusReadsAreInvisible(limit: int, start: real, ops: seq<Op>, n: nat)
    requires limit > 0 && n <= |ops| && Timed(start, ops)
    ensures var cs := Commands(ops, n);
            && Lags(limit, Exec(limit, start, cs, |cs|), Exec(limit, start, ops, n))
            && Answers(limit, start, ops, n) == Answers(limit, start, cs, |cs|)
  {
    if n == 0 {
      LagsSelf(limit, start);
    } else {
      var cs, op := Commands(ops, n - 1), ops[n - 1];
      StatusReadsAreInvisible(limit, start, ops, n - 1);
      assert Exec(limit, start, ops, n - 1).last == Instant(start, ops, n - 1) <= Instant(start, ops, n);
      LagsStep(limit, Exec(limit, start, cs, |cs|), Exec(limit, start, ops, n - 1), op);
      if op.Command? {
        PrefixDecides(limit, start, cs, [op], |cs|);
        assert Commands(ops, n) == cs + [op];
      } else {
        assert Commands(ops, n) == cs;
      }
    }
  }

  // ----- A paced sender -----

  ghost predicate Paced(limit: int, ops: seq<Op>) {
    forall i :: 0 < i < |ops| ==> (ops[i].at - ops[i - 1].at) * limit as real >= 1.0
  }

  lemma {:induction false} PacedCommandsGranted(limit: int, start: real, ops: seq<Op>, n: nat)
    requires limit > 0 && n < |ops| && Paced(limit, ops) && start <= ops[0].at
    requires forall i :: 0 <= i < |ops| ==> ops[i].Command?
    ensures Found(limit, start, ops, n) >= 1.0 && Granted(limit, start, ops, n)
  {
    if n == 0 {
      DripNonNegative(limit, ops[0].at - start);
    } else {
      PacedCommandsGranted(limit, start, ops, n - 1);
      DripIsProduct(limit, ops[n].at - ops[n - 1].at);
      FoundStep(limit, start, ops, n);
    }
  }

  lemma {:induction false} CommandsComeLater(start: real, ops: seq<Op>, n: nat)
    requires Timed(start, ops) && n <= |ops|
    ensures start <= Instant(start, ops, n)
    ensures forall i :: 0 <= i < |Commands(ops, n)| ==> Commands(ops, n)[i].Command? && start <= Commands(ops, n)[i].at
  {
    if n == 0 {
    } else {
      CommandsComeLater(start, ops, n - 1);
      assert Instant(start, ops, n - 1) <= Instant(start, ops, n);
    }
  }

  /** A sender pacing itself at 1/limit seconds or slower is never refused, whoever reads the status. */
  lemma PacedSenderNeverRefused(limit: int, start: real, ops: seq<Op>)
    requires limit > 0 && Timed(start, ops) && Paced(limit, Commands(ops, |ops|))
    ensures false !in Answers(limit, start, ops, |ops|)
  {
    var cs := Commands(ops, |ops|);
    StatusReadsAreInvisible(limit, start, ops, |ops|);
    CommandsComeLater(start, ops, |ops|);
    forall n | 0 <= n < |cs| ensures Granted(limit, start, cs, n) {
      PacedCommandsGranted(limit, start, cs, n);
    }
    AllGranted(limit, start, cs, |cs|);
  }

  lemma {:induction false} AllGranted(limit: int, start: real, ops: seq<Op>, n: nat)
    requires n <= |ops| && forall i :: 0 <= i < |ops| ==> Granted(limit, start, ops, i)
    ensures false !in Answers(limit, start, ops, n)
  {
    if n == 0 {
    } else {
      AllGranted(limit, start, ops, n - 1);
    }
  }

  // ----- The code -----

  /** The rate limiter of the command path; limit <= 0 means unlimited. */
  class Limiter {
    const limit: int
    var cmdTokens: real
    var cmdLastFill: real

    constructor (limit: int, start: real)
      ensures this.limit == limit && Contents() == Exec(limit, start, [], 0)
    {
      this.limit := limit;
      cmdTokens, cmdLastFill := limit as real, start;
    }

    ghost function Contents(): Bucket
      reads this
    {
      Bucket(cmdTokens, cmdLastFill)
    }

    method RefillCmdTokensLocked(now: real)
      requires limit > 0
      modifies this
      ensures Contents() == Refill(limit, old(Contents()), now)
    {
      var elapsed := now - cmdLastFill;
      cmdLastFill := now;
      cmdTokens := cmdTokens + elapsed * limit as real;
      DripIsProduct(limit, elapsed);
      if cmdTokens > limit as real {
        cmdTokens := limit as real;
      }
    }

    method AllowCommand(now: real) returns (ok: bool)
      modifies this
      ensures limit <= 0 ==> ok && unchanged(this)
      ensures limit > 0 ==>
                && ok == Grants(limit, old(Contents()), Command(now))
                && Contents() == Apply(limit, old(Contents()), Command(now))
    {
      if limit <= 0 {
        return true;
      }
      RefillCmdTokensLocked(now);
      if cmdTokens < 1.0 {
        return false;
      }
      cmdTokens := cmdTokens - 1.0;
      return true;
    }

    method CommandRateStatus(now: real) returns (lim: int, remaining: real, unlimited: bool)
      modifies this
      ensures unlimited <==> limit <= 0
      ensures unlimited ==> lim == 0 && remaining == 0.0 && unchanged(this)
      ensures !unlimited ==>
                && lim == limit
                && Contents() == Apply(limit, old(Contents()), Status(now))
                && remaining == Contents().tokens
    {
      if limit <= 0 {
        return 0, 0.0, true;
      }
      RefillCmdTokensLocked(now);
      return limit, cmdTokens, false;
    }
  }
}
