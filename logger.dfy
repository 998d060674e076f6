/**
 * The logging middleware: validation of the four log parameters, the
 * prepared log record, the retry loop around an abstract send, and the
 * offline queue.
 */
module Logging {
  import opened Wrappers
  import opened Text
  import opened JsObject

  const ValidStacks: seq<string> := ["backend", "frontend"]
  const ValidLevels: seq<string> := ["debug", "info", "warn", "error", "fatal"]
  const FrontendPackages: seq<string> := ["api", "component", "hook", "page", "state", "style", "handler"]
  const BackendPackages: seq<string> := ["handler", "middleware", "service", "database", "util"]
  const RetryAttempts := 3

  // ---------------------------------------------------------------- validation

  /** The messages `validateParams` collects; at most one per parameter. */
  datatype ParamError =
    | StackRequired | StackInvalid
    | LevelRequired | LevelInvalid
    | PackageRequired | PackageInvalid(stack: string, allowed: seq<string>)
    | MessageRequired

  function Join(xs: seq<string>, sep: string): string {
    if xs == [] then "" else if |xs| == 1 then xs[0] else xs[0] + sep + Join(xs[1..], sep)
  }

  function ErrorText(e: ParamError): string {
    match e
    case StackRequired => "Stack is required and must be a string"
    case StackInvalid => "Stack must be one of: " + Join(ValidStacks, ", ")
    case LevelRequired => "Level is required and must be a string"
    case LevelInvalid => "Level must be one of: " + Join(ValidLevels, ", ")
    case PackageRequired => "Package is required and must be a string"
    case PackageInvalid(stack, allowed) => "Package for " + stack + " must be one of: " + Join(allowed, ", ")
    case MessageRequired => "Message is required and must be a string"
  }

  /** The parameter an error is about, in checking order. */
  function Rank(e: ParamError): nat {
    match e
    case StackRequired | StackInvalid => 0
    case LevelRequired | LevelInvalid => 1
    case PackageRequired | PackageInvalid(_, _) => 2
    case MessageRequired => 3
  }

  /** An own property of the package table: the list for a known stack. */
  function PackagesFor(stack: string): Option<seq<string>> {
    if stack == "frontend" then Some(FrontendPackages)
    else if stack == "backend" then Some(BackendPackages)
    else None
  }

  datatype Validation = Validation(isValid: bool, errors: seq<ParamError>)

  function StackErrors(stack: string): seq<ParamError> {
    if stack == "" then [StackRequired]
    else if ToLower(stack) !in ValidStacks then [StackInvalid]
    else []
  }

  function LevelErrors(level: string): seq<ParamError> {
    if level == "" then [LevelRequired]
    else if ToLower(level) !in ValidLevels then [LevelInvalid]
    else []
  }

  /** The package is checked against a list only when the stack names one. */
  function PackageErrors(stack: string, packageName: string): seq<ParamError> {
    if packageName == "" then [PackageRequired]
    else if stack != "" && PackagesFor(ToLower(stack)).Some?
            && ToLower(packageName) !in PackagesFor(ToLower(stack)).value
    then [PackageInvalid(stack, PackagesFor(ToLower(stack)).value)]
    else []
  }

  function MessageErrors(message: string): seq<ParamError> {
    if message == "" then [MessageRequired] else []
  }

  /** `validateParams(stack, level, packageName, message)` on string arguments, with an own-property package lookup. */
  function ValidateParams(stack: string, level: string, packageName: string, message: string): Validation {
    var errors := StackErrors(stack) + LevelErrors(level) + PackageErrors(stack, packageName) + MessageErrors(message);
    Validation(|errors| == 0, errors)
  }

  /** Which error each parameter draws. */
  lemma ValidateParamsFields(stack: string, level: string, packageName: string, message: string)
    ensures var v := ValidateParams(stack, level, packageName, message);
            && (v.isValid <==> v.errors == [])
            && (StackRequired in v.errors <==> stack == "")
            && (StackInvalid in v.errors <==> stack != "" && ToLower(stack) !in ValidStacks)
            && (LevelRequired in v.errors <==> level == "")
            && (LevelInvalid in v.errors <==> level != "" && ToLower(level) !in ValidLevels)
            && (PackageRequired in v.errors <==> packageName == "")
            && (MessageRequired in v.errors <==> message == "")
  {
    var s, l, p, m := StackErrors(stack), LevelErrors(level), PackageErrors(stack, packageName), MessageErrors(message);
    var errors := s + l + p + m;
    assert forall e :: e in errors <==> e in s || e in l || e in p || e in m;
  }

  /** The errors come at most one per parameter, in the order stack, level, package, message. */
  lemma ValidateParamsOrder(stack: string, level: string, packageName: string, message: string)
    ensures var v := ValidateParams(stack, level, packageName, message);
            forall i, j :: 0 <= i < j < |v.errors| ==> Rank(v.errors[i]) < Rank(v.errors[j])
  {
    var s, l, p, m := StackErrors(stack), LevelErrors(level), PackageErrors(stack, packageName), MessageErrors(message);
    var errors := s + l + p + m;
    assert |s| <= 1 && |l| <= 1 && |p| <= 1 && |m| <= 1;
    forall i | 0 <= i < |errors|
      ensures Rank(errors[i]) == if i < |s| then 0 else if i < |s| + |l| then 1 else if i < |s| + |l| + |p| then 2 else 3
    {
      if i < |s| {
        assert errors[i] == s[i];
      } else if i < |s| + |l| {
        assert errors[i] == l[i - |s|];
      } else if i < |s| + |l| + |p| {
        assert errors[i] == p[i - |s| - |l|];
      } else {
        assert errors[i] == m[i - |s| - |l| - |p|];
      }
    }
  }

  /** The package-list check: it applies only to a known stack, and an unknown stack adds no package error. */
  lemma PackageCheckSpec(stack: string, level: string, packageName: string, message: string)
    ensures var v := ValidateParams(stack, level, packageName, message);
            && ((exists e :: e in v.errors && e.PackageInvalid?) <==>
                  packageName != "" && stack != "" && ToLower(stack) in ValidStacks
                  && ToLower(packageName) !in PackagesFor(ToLower(stack)).value)
            && (ToLower(stack) !in ValidStacks ==> forall e :: e in v.errors ==> !e.PackageInvalid?)
  {
    var v := ValidateParams(stack, level, packageName, message);
    var p := PackageErrors(stack, packageName);
    assert forall e :: e in v.errors && e.PackageInvalid? ==> e in p;
    if p != [] && p[0].PackageInvalid? {
      assert p[0] in v.errors;
    }
  }

  /** A request is valid exactly when every parameter is: a known stack and level, a package of that stack's list, a message. */
  lemma ValidIff(stack: string, level: string, packageName: string, message: string)
    ensures ValidateParams(stack, level, packageName, message).isValid <==>
              && stack != "" && ToLower(stack) in ValidStacks
              && level != "" && ToLower(level) in ValidLevels
              && packageName != "" && ToLower(packageName) in PackagesFor(ToLower(stack)).value
              && message != ""
  {
  }

  // ---------------------------------------------------------------- the inherited-property lookup

  /** What `VALID_PACKAGES[key]` yields on the object literal: an own list, an inherited member of `Object.prototype`, or nothing. */
  datatype PackageLookup = OwnList(packages: seq<string>) | InheritedMember | NoMember

  /**
   * The lower-case names `Object.prototype` supplies to every object. A
   * lower-cased key can only equal a name with no capital letter, and these
   * two are the only such names.
   */
  const InheritedNames: set<string> := {"constructor", "__proto__"}

  /** A string with a capital letter is changed by lower-casing. */
  lemma CapitalChanges(m: string, k: nat)
    requires k < |m| && IsUpper(m[k])
    ensures ToLower(m) != m
  {
    assert ToLower(m)[k] == LowerChar(m[k]) != m[k];
  }

  /** The inherited names are members of `Object.prototype`, and the only lower-case ones. */
  lemma InheritedNamesAreMembers()
    ensures InheritedNames <= PrototypeMembers
    ensures forall m :: m in PrototypeMembers && ToLower(m) == m ==> m in InheritedNames
  {
    assert "constructor" in PrototypeMembers;
    assert "__proto__" in PrototypeMembers;
    forall m | m in PrototypeMembers && m !in InheritedNames ensures ToLower(m) != m {
      OtherMembersCapitalised(m);
      var k :| 0 <= k < |m| && IsUpper(m[k]);
      CapitalChanges(m, k);
    }
  }

  /** Every other member of `Object.prototype` has a capital letter in it. */
  lemma OtherMembersCapitalised(m: string)
    requires m in PrototypeMembers && m !in InheritedNames
    ensures exists k :: 0 <= k < |m| && IsUpper(m[k])
  {
    var k := if m in {"__defineGetter__", "__defineSetter__", "__lookupGetter__", "__lookupSetter__", "propertyIsEnumerable"} then 8
             else if m == "hasOwnProperty" then 3
             else if m == "valueOf" then 5
             else 2;
    assert IsUpper(m[k]);
  }

  function LookupAsWritten(key: string): PackageLookup {
    if key == "frontend" then OwnList(FrontendPackages)
    else if key == "backend" then OwnList(BackendPackages)
    else if key in InheritedNames then InheritedMember
    else NoMember
  }

  /**
   * `validateParams` as written: with a non-empty package and a stack whose
   * lower-case form names an inherited member, the lookup is truthy and
   * calling `.includes` on it throws a `TypeError`.
   */
  function ValidateParamsAsWritten(stack: string, level: string, packageName: string, message: string): Result<Validation, string> {
    if packageName != "" && stack != "" && LookupAsWritten(ToLower(stack)).InheritedMember? then
      Failure("TypeError: VALID_PACKAGES[stack.toLowerCase()].includes is not a function")
    else Success(ValidateParams(stack, level, packageName, message))
  }

  /** Away from the inherited names the as-written validator and the own-property one agree. */
  lemma AsWrittenAgrees(stack: string, level: string, packageName: string, message: string)
    requires ToLower(stack) !in InheritedNames
    ensures ValidateParamsAsWritten(stack, level, packageName, message) == Success(ValidateParams(stack, level, packageName, message))
  {
  }

  /** No inherited name is a stack of the package table. */
  lemma InheritedNotStack(key: string)
    requires key in InheritedNames
    ensures key !in ValidStacks && PackagesFor(key).None?
  {
    assert key[0] == 'c' || key[0] == '_';
    assert ValidStacks[0][0] == 'b' && ValidStacks[1][0] == 'f';
  }

  /** "constructor" is already lower case, so it reaches the table as an inherited name. */
  lemma ConstructorIsInherited()
    ensures ToLower("constructor") == "constructor" && "constructor" in InheritedNames
  {
    ToLowerOfLower("constructor");
  }

  /**
   * A stack that lower-cases to an inherited name, with a non-empty package,
   * makes the as-written validator throw, where the own-property lookup
   * reports the invalid stack first; with a valid level and a message that
   * error is the only one.
   */
  lemma InheritedStacksThrow(stack: string, level: string, packageName: string, message: string)
    requires ToLower(stack) in InheritedNames && packageName != ""
    ensures ValidateParamsAsWritten(stack, level, packageName, message).Failure?
    ensures StackInvalid in ValidateParams(stack, level, packageName, message).errors
    ensures level != "" && ToLower(level) in ValidLevels && message != "" ==>
              ValidateParams(stack, level, packageName, message) == Validation(false, [StackInvalid])
  {
    InheritedStackErrors(stack, packageName);
    var errors := [StackInvalid] + LevelErrors(level) + MessageErrors(message);
    assert ValidateParams(stack, level, packageName, message) == Validation(false, errors);
    assert errors[0] == StackInvalid;
    if level != "" && ToLower(level) in ValidLevels && message != "" {
      assert errors == [StackInvalid];
    }
  }

  /** The stack and package errors the own-property lookup gives an inherited name. */
  lemma InheritedStackErrors(stack: string, packageName: string)
    requires ToLower(stack) in InheritedNames && packageName != ""
    ensures stack != "" && StackErrors(stack) == [StackInvalid] && PackageErrors(stack, packageName) == []
  {
    ToLowerEmpty(stack);
    InheritedNotStack(ToLower(stack));
  }

  // ---------------------------------------------------------------- the logger

  /** The record `Log` sends: lower-case stack, level and package, the message verbatim, and the time it was made. */
  datatype LogData = LogData(stack: string, level: string, package: string, message: string, timestamp: int)

  /** A queued record and the time it was (last) queued. */
  datatype QueuedLog = QueuedLog(data: LogData, queuedAt: int)

  function PrepareLogData(stack: string, level: string, packageName: string, message: string, now: int): LogData {
    LogData(ToLower(stack), ToLower(level), ToLower(packageName), message, now)
  }

  /** Preparing a valid request keeps it valid, keeps the message, and lower-case fields stay as they are. */
  lemma PrepareKeepsValid(stack: string, level: string, packageName: string, message: string, now: int)
    requires ValidateParams(stack, level, packageName, message).isValid
    ensures var d := PrepareLogData(stack, level, packageName, message, now);
            && ValidateParams(d.stack, d.level, d.package, d.message).isValid
            && d.message == message
            && d.stack in ValidStacks && d.level in ValidLevels
            && ToLower(d.stack) == d.stack && ToLower(d.level) == d.level && ToLower(d.package) == d.package
  {
    ToLowerIdempotent(stack);
    ToLowerIdempotent(level);
    ToLowerIdempotent(packageName);
    ToLowerEmpty(stack);
    ToLowerEmpty(level);
    ToLowerEmpty(packageName);
  }

  datatype SendResult = Sent(attempt: nat) | SendFailed(attempts: nat)

  /** What a call of `Log` ends in. */
  datatype LogOutcome =
    | Rejected(errors: seq<ParamError>)   // throws "Logging failed: Validation failed: ..."
    | Queued                              // "Log queued for when online"
    | Delivered(attempt: nat)
    | Undelivered(attempts: nat)          // queued, then throws "Logging failed: Failed to send log after ..."

  /**
   * The entries `processOfflineQueue` puts back: those whose send failed,
   * in their order, each stamped with the time it was queued again.
   * `sent(i)` is the outcome of sending the `i`-th entry.
   */
  function Requeued(queue: seq<QueuedLog>, sent: nat -> bool, now: int): seq<QueuedLog> {
    if queue == [] then []
    else
      var n := |queue| - 1;
      Requeued(queue[..n], sent, now) + (if sent(n) then [] else [queue[n].(queuedAt := now)])
  }

  /** Every re-queued entry is a failed one, stamped with the new time; there are never more than before. */
  lemma {:induction false} RequeuedMembers(queue: seq<QueuedLog>, sent: nat -> bool, now: int)
    ensures |Requeued(queue, sent, now)| <= |queue|
    ensures forall e :: e in Requeued(queue, sent, now) ==>
              e.queuedAt == now && exists i :: 0 <= i < |queue| && !sent(i) && e.data == queue[i].data
  {
    if queue != [] {
      var n := |queue| - 1;
      var front := queue[..n];
      RequeuedMembers(front, sent, now);
      var r := Requeued(queue, sent, now);
      forall e | e in r
        ensures e.queuedAt == now && exists i :: 0 <= i < |queue| && !sent(i) && e.data == queue[i].data
      {
        if e in Requeued(front, sent, now) {
          var i :| 0 <= i < |front| && !sent(i) && e.data == front[i].data;
          assert front[i] == queue[i];
        } else {
          assert e == queue[n].(queuedAt := now) && !sent(n);
        }
      }
    }
  }

  /** The number of failed sends among the first `n` entries. */
  function Failures(sent: nat -> bool, n: nat): nat {
    if n == 0 then 0 else Failures(sent, n - 1) + (if sent(n - 1) then 0 else 1)
  }

  /**
   * The re-queued entries are exactly the failed ones, in their order: the
   * `i`-th entry, when its send fails, is put back at the position of the
   * failures before it, and nothing else is put back.
   */
  lemma {:induction false} RequeuedPositions(queue: seq<QueuedLog>, sent: nat -> bool, now: int)
    ensures |Requeued(queue, sent, now)| == Failures(sent, |queue|)
    ensures forall i :: 0 <= i < |queue| && !sent(i) ==>
              Failures(sent, i) < |Requeued(queue, sent, now)|
              && Requeued(queue, sent, now)[Failures(sent, i)] == queue[i].(queuedAt := now)
  {
    if queue != [] {
      var n := |queue| - 1;
      var front := queue[..n];
      RequeuedPositions(front, sent, now);
      var before := Requeued(front, sent, now);
      var r := Requeued(queue, sent, now);
      assert r == before + (if sent(n) then [] else [queue[n].(queuedAt := now)]);
      forall i | 0 <= i < |queue| && !sent(i)
        ensures Failures(sent, i) < |r| && r[Failures(sent, i)] == queue[i].(queuedAt := now)
      {
        var k := Failures(sent, i);
        if i < n {
          assert k < |before| && before[k] == front[i].(queuedAt := now);
          assert front[i] == queue[i];
          assert r[k] == before[k];
        } else {
          var e := queue[n].(queuedAt := now);
          assert i == n && k == |before|;
          assert r == before + [e];
        }
      }
    }
  }

  /** When every send succeeds, nothing is queued again. */
  lemma {:induction false} RequeuedAllSent(queue: seq<QueuedLog>, sent: nat -> bool, now: int)
    requires forall i :: 0 <= i < |queue| ==> sent(i)
    ensures Requeued(queue, sent, now) == []
  {
    if queue != [] {
      RequeuedAllSent(queue[..|queue| - 1], sent, now);
    }
  }

  /** When every send fails, every entry is queued again in its place, stamped with the new time. */
  lemma {:induction false} RequeuedNoneSent(queue: seq<QueuedLog>, sent: nat -> bool, now: int)
    requires forall i :: 0 <= i < |queue| ==> !sent(i)
    ensures |Requeued(queue, sent, now)| == |queue|
    ensures forall i :: 0 <= i < |queue| ==> Requeued(queue, sent, now)[i] == queue[i].(queuedAt := now)
  {
    if queue != [] {
      var n := |queue| - 1;
      var front := queue[..n];
      RequeuedNoneSent(front, sent, now);
      assert forall i :: 0 <= i < n ==> front[i] == queue[i];
    }
  }

  datatype QueueStatus = QueueStatus(queueLength: nat, isOnline: bool, oldestEntry: Option<int>)

  /** Queue times never decrease from the front of the queue to its back. */
  predicate QueuedInOrder(queue: seq<QueuedLog>) {
    forall i, j :: 0 <= i < j < |queue| ==> queue[i].queuedAt <= queue[j].queuedAt
  }

  /** Appending an entry stamped no earlier than every queued one keeps the queue in order. */
  lemma AppendInOrder(queue: seq<QueuedLog>, e: QueuedLog)
    requires QueuedInOrder(queue)
    requires forall x :: x in queue ==> x.queuedAt <= e.queuedAt
    ensures QueuedInOrder(queue + [e])
  {
    var q := queue + [e];
    forall i, j | 0 <= i < j < |q| ensures q[i].queuedAt <= q[j].queuedAt {
      assert q[i] == queue[i];
      if j < |queue| {
        assert q[j] == queue[j];
      } else {
        assert queue[i] in queue;
      }
    }
  }

  /** The queue `processOfflineQueue` leaves is in order: every entry carries the same new stamp. */
  lemma RequeuedInOrder(queue: seq<QueuedLog>, sent: nat -> bool, now: int)
    ensures QueuedInOrder(Requeued(queue, sent, now))
  {
    var r := Requeued(queue, sent, now);
    RequeuedMembers(queue, sent, now);
    forall i, j | 0 <= i < j < |r| ensures r[i].queuedAt <= r[j].queuedAt {
      assert r[i] in r && r[j] in r;
    }
  }

  /** The front of a queue in order carries the earliest stamp. */
  lemma FrontIsOldest(queue: seq<QueuedLog>)
    requires QueuedInOrder(queue) && queue != []
    ensures forall x :: x in queue ==> queue[0].queuedAt <= x.queuedAt
  {
    forall x | x in queue ensures queue[0].queuedAt <= x.queuedAt {
      var j :| 0 <= j < |queue| && queue[j] == x;
      if j > 0 {
        assert queue[0].queuedAt <= queue[j].queuedAt;
      }
    }
  }

  class Logger {
    var offlineQueue: seq<QueuedLog>
    var isOnline: bool

    /** A logger with the connectivity it starts with and the queue it loads. */
    constructor (online: bool, stored: seq<QueuedLog>)
      ensures isOnline == online && offlineQueue == stored
    {
      isOnline, offlineQueue := online, stored;
    }

    /** `queueOfflineLog(logData)`: appends one entry at the end. */
    method QueueOfflineLog(data: LogData, now: int)
      modifies this
      ensures offlineQueue == old(offlineQueue) + [QueuedLog(data, now)]
      ensures isOnline == old(isOnline)
      ensures QueuedInOrder(old(offlineQueue)) && (forall x :: x in old(offlineQueue) ==> x.queuedAt <= now) ==>
                QueuedInOrder(offlineQueue)
    {
      if QueuedInOrder(offlineQueue) && (forall x :: x in offlineQueue ==> x.queuedAt <= now) {
        AppendInOrder(offlineQueue, QueuedLog(data, now));
      }
      offlineQueue := offlineQueue + [QueuedLog(data, now)];
    }

    /** `processOfflineQueue()`: takes the queue, sends every entry once, and queues the failed ones again. */
    method ProcessOfflineQueue(sent: nat -> bool, now: int)
      modifies this
      ensures offlineQueue == Requeued(old(offlineQueue), sent, now)
      ensures isOnline == old(isOnline)
      ensures QueuedInOrder(offlineQueue)
    {
      RequeuedInOrder(offlineQueue, sent, now);
      if |offlineQueue| == 0 {
        return;
      }
      var queueCopy := offlineQueue;
      offlineQueue := [];
      for i := 0 to |queueCopy|
        invariant offlineQueue == Requeued(queueCopy[..i], sent, now)
        invariant isOnline == old(isOnline)
      {
        assert queueCopy[..i + 1][..i] == queueCopy[..i];
        if !sent(i) {
          QueueOfflineLog(queueCopy[i].data, now);
        }
      }
      assert queueCopy[..|queueCopy|] == queueCopy;
    }

    /**
     * `sendLogWithRetry(logData)`: up to three attempts, stopping at the first
     * success; `attemptOk(k)` is the outcome of the `k`-th attempt.
     */
    method SendLogWithRetry(data: LogData, attemptOk: nat -> bool) returns (r: SendResult)
      ensures r.Sent? ==> 1 <= r.attempt <= RetryAttempts && attemptOk(r.attempt)
                          && forall k :: 1 <= k < r.attempt ==> !attemptOk(k)
      ensures r.SendFailed? ==> r.attempts == RetryAttempts && forall k :: 1 <= k <= RetryAttempts ==> !attemptOk(k)
    {
      var attempt := 1;
      while attempt <= RetryAttempts
        invariant 1 <= attempt <= RetryAttempts + 1
        invariant forall k :: 1 <= k < attempt ==> !attemptOk(k)
      {
        if attemptOk(attempt) {
          return Sent(attempt);
        }
        attempt := attempt + 1;
      }
      r := SendFailed(RetryAttempts);
    }

    /**
     * `Log(stack, level, packageName, message)`: invalid requests are
     * rejected before anything is queued or sent; offline requests are
     * queued; sent requests that fail every attempt are queued and reported.
     */
    method Log(stack: string, level: string, packageName: string, message: string, now: int, attemptOk: nat -> bool)
      returns (outcome: LogOutcome)
      modifies this
      ensures isOnline == old(isOnline)
      ensures var v := ValidateParams(stack, level, packageName, message);
              !v.isValid ==> outcome == Rejected(v.errors) && offlineQueue == old(offlineQueue)
      ensures var v := ValidateParams(stack, level, packageName, message);
              v.isValid && !isOnline ==>
                outcome == Queued
                && offlineQueue == old(offlineQueue) + [QueuedLog(PrepareLogData(stack, level, packageName, message, now), now)]
      ensures ValidateParams(stack, level, packageName, message).isValid && isOnline ==>
                (outcome.Delivered? || outcome.Undelivered?)
      ensures outcome.Delivered? ==>
                offlineQueue == old(offlineQueue) && 1 <= outcome.attempt <= RetryAttempts && attemptOk(outcome.attempt)
                && forall k :: 1 <= k < outcome.attempt ==> !attemptOk(k)
      ensures outcome.Undelivered? ==>
                && outcome.attempts == RetryAttempts
                && (forall k :: 1 <= k <= RetryAttempts ==> !attemptOk(k))
                && offlineQueue == old(offlineQueue) + [QueuedLog(PrepareLogData(stack, level, packageName, message, now), now)]
    {
      var v := ValidateParams(stack, level, packageName, message);
      if !v.isValid {
        return Rejected(v.errors);
      }
      var data := PrepareLogData(stack, level, packageName, message, now);
      if !isOnline {
        QueueOfflineLog(data, now);
        return Queued;
      }
      var result := SendLogWithRetry(data, attemptOk);
      if result.SendFailed? {
        QueueOfflineLog(data, now);
        return Undelivered(result.attempts);
      }
      outcome := Delivered(result.attempt);
    }

    /** `getOfflineQueueStatus()`: the length, the connectivity, and the time the oldest entry was queued. */
    function Status(): (status: QueueStatus)
      reads this
      ensures status.queueLength == |offlineQueue| && status.isOnline == isOnline
      ensures status.oldestEntry.Some? <==> offlineQueue != []
      ensures status.oldestEntry.Some? ==> status.oldestEntry.value == offlineQueue[0].queuedAt
      ensures QueuedInOrder(offlineQueue) && status.oldestEntry.Some? ==>
                forall x :: x in offlineQueue ==> status.oldestEntry.value <= x.queuedAt
    {
      if |offlineQueue| > 0 && QueuedInOrder(offlineQueue) then
        FrontIsOldest(offlineQueue);
        QueueStatus(|offlineQueue|, isOnline, Some(offlineQueue[0].queuedAt))
      else
        QueueStatus(|offlineQueue|, isOnline, if |offlineQueue| > 0 then Some(offlineQueue[0].queuedAt) else None)
    }

    /** `clearOfflineQueue()`. */
    method ClearOfflineQueue()
      modifies this
      ensures offlineQueue == [] && isOnline == old(isOnline)
    {
      offlineQueue := [];
    }
  }
}
