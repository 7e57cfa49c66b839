/**
 * The retry policy and the lazy property of the decorators module, as its
 * tests pin them down. `retry(exceptions, tries, delay, backoff)` calls the
 * wrapped function up to `tries` times; each failure of a listed kind logs
 * a warning naming the attempt, the exception and the delay before the next
 * try, and the delay is multiplied by `backoff`; the last failure, or any
 * failure of an unlisted kind, reaches the caller unchanged.
 * `lazy_property` computes a property on first read and keeps it in the
 * instance attribute `_lazy_<name>`.
 *
 * The clock (`time.sleep`) is not part of this model: the delay only appears
 * in the warnings.
 */
module Decorators {
  import opened Values
  import opened Text

  /** The attempt count of the observed behaviour. */
  const DefaultTries: nat := 3

  /** The retry settings of the DV360 API calls (`@retry(..., tries=3, delay=15, backoff=2)`). */
  const DBMTries: nat := 3
  const DBMDelay: int := 15
  const DBMBackoff: int := 2

  /** A logged warning, `'Try %d: "%s" - retrying in %d seconds...'`. */
  datatype Warning = Warning(attempt: nat, error: Error, delay: int)

  /** What one wrapped call amounts to: the result the caller sees, the warnings logged, the calls made. */
  datatype Run<T> = Run(result: Result<T>, warnings: seq<Warning>, calls: nat)

  function Pow(b: int, n: nat): int
  {
    if n == 0 then 1 else b * Pow(b, n - 1)
  }

  /**
   * The retry policy from attempt `k` on, `d` being the delay that attempt's
   * warning would announce. `call(k)` is what the `k`-th call (from 1) of
   * the wrapped function does.
   */
  function RetryFrom<T>(tries: nat, backoff: int, retryable: Error -> bool, call: nat -> Result<T>,
                        k: nat, d: int): Run<T>
    requires 1 <= k <= tries
    decreases tries - k
  {
    var out := call(k);
    if out.Ok? || !retryable(out.error) then Run(out, [], k)
    else if k == tries then Run(out, [Warning(k, out.error, d)], k)
    else
      var rest := RetryFrom(tries, backoff, retryable, call, k + 1, d * backoff);
      Run(rest.result, [Warning(k, out.error, d)] + rest.warnings, rest.calls)
  }

  /** The wrapped call: the policy from the first attempt with the initial delay. */
  function Retry<T>(tries: nat, delay: int, backoff: int, retryable: Error -> bool, call: nat -> Result<T>): Run<T>
    requires tries >= 1
  {
    RetryFrom(tries, backoff, retryable, call, 1, delay)
  }

  /** A call that fails in a way the policy retries. */
  predicate Retried<T>(retryable: Error -> bool, out: Result<T>)
  {
    out.Err? && retryable(out.error)
  }

  /**
   * Which calls the policy makes: they stop at the first success, the first
   * unlisted failure or the last try, and the caller sees the last call's
   * own result.
   */
  lemma {:induction false} RetryFromCalls<T>(tries: nat, backoff: int, retryable: Error -> bool,
                                              call: nat -> Result<T>, k: nat, d: int)
    requires 1 <= k <= tries
    ensures var run := RetryFrom(tries, backoff, retryable, call, k, d);
      && k <= run.calls <= tries
      && run.result == call(run.calls)
      && (forall j :: k <= j < run.calls ==> Retried(retryable, call(j)))
      && (Retried(retryable, run.result) ==> run.calls == tries)
    decreases tries - k
  {
    var out := call(k);
    if !(out.Ok? || !retryable(out.error)) && k < tries {
      RetryFromCalls(tries, backoff, retryable, call, k + 1, d * backoff);
    }
  }

  /** The delay announced `n` warnings after one announcing `d`. */
  function Delay(d: int, b: int, n: nat): int
    decreases n
  {
    if n == 0 then d else Delay(d * b, b, n - 1)
  }

  /** Each warning's delay is the initial one times `backoff` to the number of warnings before it. */
  lemma {:induction false} DelayIsPow(d: int, b: int, n: nat)
    ensures Delay(d, b, n) == d * Pow(b, n)
    decreases n
  {
    if n > 0 {
      DelayIsPow(d * b, b, n - 1);
      calc {
        Delay(d, b, n);
        (d * b) * Pow(b, n - 1);
        d * (b * Pow(b, n - 1));
        d * Pow(b, n);
      }
    }
  }

  /** The `i`-th warning of `ws` is that of attempt `k + i`, which failed, announcing delay `delay`. */
  predicate WarnsAt<T>(ws: seq<Warning>, call: nat -> Result<T>, k: nat, i: nat, delay: int)
    requires i < |ws|
  {
    call(k + i).Err? && ws[i] == Warning(k + i, call(k + i).error, delay)
  }

  lemma {:induction false} RetryFromWarningsDelay<T>(tries: nat, backoff: int, retryable: Error -> bool,
                                                      call: nat -> Result<T>, k: nat, d: int)
    requires 1 <= k <= tries
    ensures var run := RetryFrom(tries, backoff, retryable, call, k, d);
      && |run.warnings| == run.calls - k + (if Retried(retryable, run.result) then 1 else 0)
      && (forall i :: 0 <= i < |run.warnings| ==> WarnsAt(run.warnings, call, k, i, Delay(d, backoff, i)))
    decreases tries - k
  {
    var out := call(k);
    if out.Ok? || !retryable(out.error) {
    } else if k == tries {
    } else {
      RetryFromWarningsDelay(tries, backoff, retryable, call, k + 1, d * backoff);
      var rest := RetryFrom(tries, backoff, retryable, call, k + 1, d * backoff);
      var run := RetryFrom(tries, backoff, retryable, call, k, d);
      assert run.warnings == [Warning(k, out.error, d)] + rest.warnings;
      assert run.result == rest.result && run.calls == rest.calls;
      ShiftWarnings(run.warnings, rest.warnings, call, k, d, backoff);
    }
  }

  /** A warning for attempt `k` in front of the warnings from attempt `k + 1` on. */
  lemma ShiftWarnings<T>(ws: seq<Warning>, rest: seq<Warning>, call: nat -> Result<T>, k: nat, d: int, backoff: int)
    requires call(k).Err? && ws == [Warning(k, call(k).error, d)] + rest
    requires forall i :: 0 <= i < |rest| ==> WarnsAt(rest, call, k + 1, i, Delay(d * backoff, backoff, i))
    ensures forall i :: 0 <= i < |ws| ==> WarnsAt(ws, call, k, i, Delay(d, backoff, i))
  {
    forall i | 0 <= i < |ws|
      ensures WarnsAt(ws, call, k, i, Delay(d, backoff, i))
    {
      if i == 0 {
        assert ws[0] == Warning(k, call(k).error, d);
        assert Delay(d, backoff, 0) == d;
      } else {
        var j := i - 1;
        assert ws[i] == rest[j];
        assert WarnsAt(rest, call, k + 1, j, Delay(d * backoff, backoff, j));
        assert k + 1 + j == k + i;
      }
    }
  }

  /**
   * The warnings the policy logs: one per listed failure, in order, with
   * attempt numbers counting up from `k` and the delay multiplied by
   * `backoff` each time.
   */
  lemma RetryFromWarnings<T>(tries: nat, backoff: int, retryable: Error -> bool,
                             call: nat -> Result<T>, k: nat, d: int)
    requires 1 <= k <= tries
    ensures var run := RetryFrom(tries, backoff, retryable, call, k, d);
      && |run.warnings| == run.calls - k + (if Retried(retryable, run.result) then 1 else 0)
      && (forall i :: 0 <= i < |run.warnings| ==> WarnsAt(run.warnings, call, k, i, d * Pow(backoff, i)))
  {
    RetryFromWarningsDelay(tries, backoff, retryable, call, k, d);
    var run := RetryFrom(tries, backoff, retryable, call, k, d);
    forall i | 0 <= i < |run.warnings|
      ensures WarnsAt(run.warnings, call, k, i, d * Pow(backoff, i))
    {
      assert WarnsAt(run.warnings, call, k, i, Delay(d, backoff, i));
      DelayIsPow(d, backoff, i);
    }
  }

  /** A first call that succeeds is made once, returned unchanged and logs nothing. */
  lemma RetryFirstSuccess<T>(tries: nat, delay: int, backoff: int, retryable: Error -> bool, call: nat -> Result<T>)
    requires tries >= 1 && call(1).Ok?
    ensures Retry(tries, delay, backoff, retryable, call) == Run(call(1), [], 1)
  {
  }

  /** A failure of an unlisted kind propagates at once, unlogged. */
  lemma RetryUnlisted<T>(tries: nat, delay: int, backoff: int, retryable: Error -> bool, call: nat -> Result<T>)
    requires tries >= 1 && call(1).Err? && !retryable(call(1).error)
    ensures Retry(tries, delay, backoff, retryable, call) == Run(call(1), [], 1)
  {
  }

  /**
   * When every attempt fails with a listed kind, all `tries` calls are made,
   * each logs a warning, and the last failure reaches the caller.
   */
  lemma RetryAllFail<T>(tries: nat, delay: int, backoff: int, retryable: Error -> bool, call: nat -> Result<T>)
    requires tries >= 1
    requires forall k :: 1 <= k <= tries ==> Retried(retryable, call(k))
    ensures var run := Retry(tries, delay, backoff, retryable, call);
      run.calls == tries && run.result == call(tries) && |run.warnings| == tries
  {
    RetryFromCalls(tries, backoff, retryable, call, 1, delay);
    RetryFromWarnings(tries, backoff, retryable, call, 1, delay);
  }

  /** The all-fail test: the exception and its message come through, after three warnings. */
  lemma RetryAndFail(message: string)
    ensures var run := Retry<()>(DefaultTries, 1, 2, (e: Error) => true,
                                 (k: nat) => Err(NotImplementedError(message)));
      run.result == Err(NotImplementedError(message)) && |run.warnings| == 3
  {
    var call: nat -> Result<()> := (k: nat) => Err(NotImplementedError(message));
    RetryAllFail(DefaultTries, 1, 2, (e: Error) => true, call);
  }

  /**
   * The fail-once test: two calls, one warning, for attempt 1 with the
   * initial delay, and the success comes through.
   */
  lemma RetryAndSucceed(e: Error)
    ensures var run := Retry(DefaultTries, 1, 2, (x: Error) => true,
                             (k: nat) => if k == 1 then Err(e) else Ok(()));
      run == Run(Ok(()), [Warning(1, e, 1)], 2)
  {
  }

  /** The DV360 calls wait 15, 30 and then 60 seconds between failed tries. */
  lemma DBMRetryDelays<T>(retryable: Error -> bool, call: nat -> Result<T>)
    requires forall k :: 1 <= k <= DBMTries ==> Retried(retryable, call(k))
    ensures var run := Retry(DBMTries, DBMDelay, DBMBackoff, retryable, call);
      |run.warnings| == 3 &&
      run.warnings[0].delay == 15 && run.warnings[1].delay == 30 && run.warnings[2].delay == 60
  {
    RetryFromCalls(DBMTries, DBMBackoff, retryable, call, 1, DBMDelay);
    RetryFromWarnings(DBMTries, DBMBackoff, retryable, call, 1, DBMDelay);
    assert Pow(DBMBackoff, 2) == 4;
  }

  /**
   * The retry loop itself: `call(k)` stands for the `k`-th call of the
   * wrapped function. It returns what the caller sees and the warnings
   * logged, and makes exactly the calls the policy says.
   */
  method RetryCall<T>(tries: nat, delay: int, backoff: int, retryable: Error -> bool, call: nat -> Result<T>)
    returns (r: Result<T>, warnings: seq<Warning>, calls: nat)
    requires tries >= 1
    ensures Run(r, warnings, calls) == Retry(tries, delay, backoff, retryable, call)
  {
    var attempt := 1;
    var wait := delay;
    warnings := [];
    while true
      invariant 1 <= attempt <= tries
      invariant var rest := RetryFrom(tries, backoff, retryable, call, attempt, wait);
        Retry(tries, delay, backoff, retryable, call) == Run(rest.result, warnings + rest.warnings, rest.calls)
      decreases tries - attempt
    {
      var out := call(attempt);
      if out.Ok? || !retryable(out.error) {
        return out, warnings, attempt;
      }
      warnings := warnings + [Warning(attempt, out.error, wait)];
      if attempt == tries {
        return out, warnings, attempt;
      }
      wait := wait * backoff;
      attempt := attempt + 1;
    }
  }

  /** The instance attribute a lazy property is kept in. */
  function CacheSlot(name: string): (r: string)
    ensures StartsWith(r, "_lazy_") && r[6..] == name
  {
    "_lazy_" + name
  }

  /**
   * Reading a lazy property over the instance attributes `attrs`: the kept
   * value when there is one, else `value` (the getter's result), which is
   * then kept.
   */
  function LazyRead(attrs: map<string, Value>, name: string, value: Value): (r: (Value, map<string, Value>))
    ensures CacheSlot(name) in r.1
    ensures r.0 == r.1[CacheSlot(name)]
    ensures CacheSlot(name) in attrs ==> r == (attrs[CacheSlot(name)], attrs)
    ensures CacheSlot(name) !in attrs ==> r.0 == value
    ensures forall k :: k in attrs || k in r.1 ==> k == CacheSlot(name) || (k in attrs && k in r.1 && r.1[k] == attrs[k])
  {
    if CacheSlot(name) in attrs then (attrs[CacheSlot(name)], attrs)
    else (value, attrs[CacheSlot(name) := value])
  }

  /** A second read returns what the first did and changes nothing, whatever the getter would give. */
  lemma LazyReadOnce(attrs: map<string, Value>, name: string, first: Value, second: Value)
    ensures var (v1, a1) := LazyRead(attrs, name, first);
      LazyRead(a1, name, second) == (v1, a1)
  {
  }

  /** The test's instance: no slot before the read, the slot after it, and the read gives 'lazy'. */
  lemma LazyThing()
    ensures CacheSlot("lazy_thing") == "_lazy_lazy_thing"
    ensures var (v, a) := LazyRead(map[], "lazy_thing", Str("lazy"));
      v == Str("lazy") && "_lazy_lazy_thing" in a
  {
  }

  /** An object with a lazy property: its attributes and how often the getter has run. */
  class LazyObject {
    var attrs: map<string, Value>
    var computed: nat

    constructor()
      ensures attrs == map[] && computed == 0
    {
      attrs := map[];
      computed := 0;
    }

    /** Reads the property `name` whose getter's `n`-th run gives `getter(n)`. */
    method Read(name: string, getter: nat -> Value) returns (v: Value)
      modifies this
      ensures (v, attrs) == LazyRead(old(attrs), name, getter(old(computed)))
      ensures computed == old(computed) + (if CacheSlot(name) in old(attrs) then 0 else 1)
    {
      var slot := CacheSlot(name);
      if slot in attrs {
        v := attrs[slot];
      } else {
        v := getter(computed);
        computed := computed + 1;
        attrs := attrs[slot := v];
      }
    }
  }
}
