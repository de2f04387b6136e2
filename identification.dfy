/** The capture-and-identify run of the photo button.

    The camera, the file system and the three Face API calls are replaced by
    their results, given as inputs. What is modelled is how those results
    decide the text that is spoken (`message`), the text of the log line,
    whether the identify call is made, and which persons are looked up, in
    which order.
 */
module Identification {

  /** A person identifier of the recognition group (a Guid in the service). */
  type PersonId = nat

  /** The result of one remote call: a value, a `FaceAPIException` carrying the
      service's own `ErrorMessage`, or any other exception with its `Message`. */
  datatype Reply<T> = Ok(value: T) | ApiError(errorMessage: string) | Fault(message: string)

  /** How the first step of a run, storing the current frame as a file, ended.
      A failed file creation leaves the previous photo file in place; a failed
      capture leaves the freshly created file. Both only write the log. */
  datatype Capture = Captured | CreateFailed(message: string) | CaptureFailed(message: string)

  /** What a run leaves behind: the spoken text, the log text, whether the
      identify call was made, and the person ids looked up, in call order. */
  datatype Outcome = Outcome(message: string, log: string, identified: bool, lookups: seq<PersonId>)

  const NO_FACES := "No faces detected!"
  const UNKNOWN := "I don't know you!"

  /** The greeting for a recognised person: `string.Format("Welcome {0}!", name)`. */
  function Welcome(name: string): (w: string)
    ensures |w| == |name| + 9 && w[8..|w| - 1] == name
    ensures w[..8] == "Welcome " && w[|w| - 1] == '!'
  {
    "Welcome " + name + "!"
  }

  /** A result is resolved when it has a candidate and the lookup made for
      it returns a person. */
  predicate Known(result: seq<PersonId>, reply: Reply<string>)
  {
    |result| > 0 && reply.Ok?
  }

  /** The `foreach` over the identify results, from result `i` on, with the
      given message, log text and lookups made so far. Every result before
      `i` made exactly one lookup, so the lookup for result `i` is the run's
      `i`-th person lookup (counting from 0) and gets the reply `persons(i)`;
      two lookups of the same person are two calls with replies of their own. */
  function Walk(results: seq<seq<PersonId>>, i: nat, persons: nat -> Reply<string>,
                message: string, log: string, looked: seq<PersonId>): (r: Outcome)
    requires i <= |results|
    ensures r.identified
    ensures looked <= r.lookups && |r.lookups| <= |looked| + (|results| - i)
    decreases |results| - i
  {
    if i == |results| then Outcome(message, log, true, looked)
    else if |results[i]| == 0 then Outcome(UNKNOWN, UNKNOWN, true, looked)
    else
      var id := results[i][0];
      match persons(i)
      case Ok(name) => Walk(results, i + 1, persons, Welcome(name), Welcome(name), looked + [id])
      case ApiError(e) => Outcome(message, e, true, looked + [id])
      case Fault(e) => Outcome(e, e, true, looked + [id])
  }

  /** The log after the capture step: a failed capture replaces it by the
      error's message. */
  function CaptureLog(capture: Capture, log0: string): string
  {
    match capture
    case Captured => log0
    case CreateFailed(e) => e
    case CaptureFailed(e) => e
  }

  /** The whole run: the capture step, then detection, identification and the
      lookups, with `message` starting out empty and the log at `log0`. */
  function Run(capture: Capture, log0: string, detect: Reply<nat>,
               identify: Reply<seq<seq<PersonId>>>, persons: nat -> Reply<string>): Outcome
  {
    var log := CaptureLog(capture, log0);
    match detect
    case ApiError(e) => Outcome("", e, false, [])
    case Fault(e) => Outcome(e, e, false, [])
    case Ok(faces) =>
      if faces == 0 then Outcome(NO_FACES, NO_FACES, false, [])
      else
        match identify
        case ApiError(e) => Outcome("", e, true, [])
        case Fault(e) => Outcome(e, e, true, [])
        case Ok(results) => Walk(results, 0, persons, "", log, [])
  }

  /** The body of the photo run, step by step, with its loop over the results.
      The `n`-th person lookup of the run receives `persons(n)`. */
  method Identify(capture: Capture, log0: string, detect: Reply<nat>,
                  identify: Reply<seq<seq<PersonId>>>, persons: nat -> Reply<string>)
    returns (outcome: Outcome)
    ensures outcome == Run(capture, log0, detect, identify, persons)
  {
    var message := "";
    var log := log0;
    match capture {
      case Captured =>
      case CreateFailed(e) => log := e;
      case CaptureFailed(e) => log := e;
    }
    match detect {
      case ApiError(e) => return Outcome(message, e, false, []);
      case Fault(e) => return Outcome(e, e, false, []);
      case Ok(faces) =>
    }
    if detect.value == 0 {
      return Outcome(NO_FACES, NO_FACES, false, []);
    }
    match identify {
      case ApiError(e) => return Outcome(message, e, true, []);
      case Fault(e) => return Outcome(e, e, true, []);
      case Ok(_) =>
    }
    var results := identify.value;
    ghost var logStart := log;
    var looked: seq<PersonId> := [];
    var i := 0;
    while i < |results|
      invariant 0 <= i <= |results|
      invariant Walk(results, i, persons, message, log, looked) == Walk(results, 0, persons, "", logStart, [])
    {
      if |results[i]| == 0 {
        return Outcome(UNKNOWN, UNKNOWN, true, looked);
      }
      var id := results[i][0];
      match persons(i) {
        case ApiError(e) => return Outcome(message, e, true, looked + [id]);
        case Fault(e) => return Outcome(e, e, true, looked + [id]);
        case Ok(name) =>
          message := Welcome(name);
          log := message;
          looked := looked + [id];
      }
      i := i + 1;
    }
    outcome := Outcome(message, log, true, looked);
  }

  /** When every result from `i` on resolves, one lookup is made per result,
      of its first candidate, in order, and the message and log are the
      welcome of the last one. */
  lemma {:induction false} WalkAllKnown(results: seq<seq<PersonId>>, i: nat, persons: nat -> Reply<string>,
                                        message: string, log: string, looked: seq<PersonId>)
    requires i <= |results| && |looked| == i
    requires forall j :: i <= j < |results| ==> Known(results[j], persons(j))
    ensures var r := Walk(results, i, persons, message, log, looked);
      && |r.lookups| == |results|
      && r.lookups[..i] == looked
      && (forall j :: i <= j < |results| ==> |results[j]| > 0 && r.lookups[j] == results[j][0])
      && (i == |results| ==> r.message == message && r.log == log)
      && (i < |results| ==> persons(|results| - 1).Ok? && r.message == Welcome(persons(|results| - 1).value)
                            && r.log == r.message)
    decreases |results| - i
  {
    if i < |results| {
      assert Known(results[i], persons(i));
      var id := results[i][0];
      var w := Welcome(persons(i).value);
      var next := looked + [id];
      WalkAllKnown(results, i + 1, persons, w, w, next);
      var r := Walk(results, i, persons, message, log, looked);
      assert r == Walk(results, i + 1, persons, w, w, next);
      assert r.lookups[..i + 1] == next;
      assert r.lookups[..i] == next[..i];
      assert r.lookups[i] == next[i];
    }
  }

  /** When result `k` is the first from `i` on that does not resolve, exactly
      the results before it are looked up, plus result `k` itself if it has a
      candidate, and no later one. An empty candidate list gives "I don't know
      you!"; a failed lookup of result `k` either keeps the message it found
      (the service's own error) or replaces it by the exception's text. */
  lemma {:induction false} WalkStopsAt(results: seq<seq<PersonId>>, i: nat, persons: nat -> Reply<string>,
                                       message: string, log: string, looked: seq<PersonId>, k: nat)
    requires i <= k < |results| && |looked| == i
    requires forall j :: i <= j < k ==> Known(results[j], persons(j))
    requires !Known(results[k], persons(k))
    ensures var r := Walk(results, i, persons, message, log, looked);
      && |r.lookups| == k + (if results[k] == [] then 0 else 1)
      && r.lookups[..i] == looked
      && (forall j :: i <= j < k ==> |results[j]| > 0 && r.lookups[j] == results[j][0])
      && (results[k] != [] ==> r.lookups[k] == results[k][0])
      && (results[k] == [] ==> r.message == UNKNOWN && r.log == UNKNOWN)
      && (results[k] != [] && persons(k).ApiError? ==> r.log == persons(k).errorMessage)
      && (results[k] != [] && persons(k).ApiError? && k == i ==> r.message == message)
      && (results[k] != [] && persons(k).ApiError? && k > i ==>
            persons(k - 1).Ok? && r.message == Welcome(persons(k - 1).value))
      && (results[k] != [] && persons(k).Fault? ==> r.message == persons(k).message && r.log == r.message)
    decreases k - i
  {
    if i < k {
      assert Known(results[i], persons(i));
      var id := results[i][0];
      var w := Welcome(persons(i).value);
      var next := looked + [id];
      WalkStopsAt(results, i + 1, persons, w, w, next, k);
      var r := Walk(results, i, persons, message, log, looked);
      assert r == Walk(results, i + 1, persons, w, w, next);
      assert r.lookups[..i + 1] == next;
      assert r.lookups[..i] == next[..i];
      assert r.lookups[i] == next[i];
    }
  }

  /** No faces: the message is exactly "No faces detected!", and neither the
      identify call nor any lookup is made. */
  lemma NoFacesDetected(capture: Capture, log0: string, identify: Reply<seq<seq<PersonId>>>,
                        persons: nat -> Reply<string>)
    ensures Run(capture, log0, Ok(0), identify, persons) == Outcome(NO_FACES, NO_FACES, false, [])
  {
  }

  /** An unknown face aborts the loop: later results are not looked up, and a
      welcome set for an earlier face is overwritten. */
  lemma UnknownFaceAborts(capture: Capture, log0: string, faces: nat, results: seq<seq<PersonId>>,
                          persons: nat -> Reply<string>, k: nat)
    requires faces > 0 && k < |results| && results[k] == []
    requires forall i :: 0 <= i < k ==> Known(results[i], persons(i))
    ensures var r := Run(capture, log0, Ok(faces), Ok(results), persons);
      && r.message == UNKNOWN && r.log == UNKNOWN && r.identified
      && |r.lookups| == k
      && (forall i :: 0 <= i < k ==> |results[i]| > 0 && r.lookups[i] == results[i][0])
  {
    WalkStopsAt(results, 0, persons, "", CaptureLog(capture, log0), [], k);
  }

  /** When every face is known, the message is the welcome of the person
      returned by the last lookup, and exactly one lookup was made per
      result, of its best candidate, in order. */
  lemma LastWelcomeWins(capture: Capture, log0: string, faces: nat, results: seq<seq<PersonId>>,
                        persons: nat -> Reply<string>)
    requires faces > 0 && |results| > 0
    requires forall i :: 0 <= i < |results| ==> Known(results[i], persons(i))
    ensures var r := Run(capture, log0, Ok(faces), Ok(results), persons);
      && persons(|results| - 1).Ok? && r.message == Welcome(persons(|results| - 1).value)
      && r.log == r.message && r.identified
      && |r.lookups| == |results|
      && (forall i :: 0 <= i < |results| ==> |results[i]| > 0 && r.lookups[i] == results[i][0])
  {
    WalkAllKnown(results, 0, persons, "", CaptureLog(capture, log0), []);
  }

  /** A `FaceAPIException` from the lookup of result `k` only writes the log:
      the message stays empty when no face was welcomed yet, and otherwise
      keeps the welcome of result `k - 1`. */
  lemma ApiErrorKeepsMessage(capture: Capture, log0: string, faces: nat, results: seq<seq<PersonId>>,
                             persons: nat -> Reply<string>, k: nat)
    requires faces > 0 && k < |results| && results[k] != [] && persons(k).ApiError?
    requires forall i :: 0 <= i < k ==> Known(results[i], persons(i))
    ensures var r := Run(capture, log0, Ok(faces), Ok(results), persons);
      && (k == 0 ==> r.message == "")
      && (k > 0 ==> persons(k - 1).Ok? && r.message == Welcome(persons(k - 1).value))
      && r.log == persons(k).errorMessage
      && |r.lookups| == k + 1 && r.lookups[k] == results[k][0]
  {
    WalkStopsAt(results, 0, persons, "", CaptureLog(capture, log0), [], k);
  }

  /** Two faces of the same person are two lookups: the first can welcome
      the person and the second fail with the service's error, which keeps
      the first welcome as the message. */
  lemma SamePersonLookedUpTwice(capture: Capture, log0: string, faces: nat, p: PersonId,
                                persons: nat -> Reply<string>)
    requires faces > 0 && persons(0).Ok? && persons(1).ApiError?
    ensures var r := Run(capture, log0, Ok(faces), Ok([[p], [p]]), persons);
      r.message == Welcome(persons(0).value) && r.log == persons(1).errorMessage && r.lookups == [p, p]
  {
    WalkStopsAt([[p], [p]], 0, persons, "", CaptureLog(capture, log0), [], 1);
  }

  /** A `FaceAPIException` from detection or identification leaves the
      message empty and makes no lookup. */
  lemma ApiErrorBeforeLookups(capture: Capture, log0: string, detect: Reply<nat>,
                              identify: Reply<seq<seq<PersonId>>>, persons: nat -> Reply<string>)
    requires detect.ApiError? || (detect.Ok? && detect.value > 0 && identify.ApiError?)
    ensures var r := Run(capture, log0, detect, identify, persons);
      r.message == "" && r.lookups == []
      && r.log == (if detect.ApiError? then detect.errorMessage else identify.errorMessage)
  {
  }
}
