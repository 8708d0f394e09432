/**
 * Normalisation and validation of candidate records
 * (frontend/src/factories/CandidateCardFactory.ts).
 *
 * DOMPurify's sanitiser is the caller-supplied `sanitize`; the clock and the
 * random generator are the caller-supplied values of `Entropy`.
 */
module CandidateCardFactory {
  import opened KanbanTypes
  import opened JsBuiltins

  /** `Math.floor(Math.random() * 1000000)`: an integer in [0, 1000000). */
  type FallbackDraw = n: nat | n < 1000000

  /**
   * The nondeterministic values one candidate consumes: the fallback
   * application id, `Date.now()`, and the decimal text of `Math.random()`.
   */
  datatype Entropy = Entropy(fallbackApplicationId: FallbackDraw, now: nat, randomText: string)

  /** The drag identity `candidate-<applicationId>-<now>-<random>`. */
  function CandidateId(applicationId: int, now: nat, randomText: string): (id: string)
    ensures StartsWith(id, "candidate-")
  {
    "candidate-" + IntToString(applicationId) + "-" + NatToString(now) + "-" + randomText
  }

  /** The drag identity split after its `candidate-` prefix. */
  lemma CandidateIdShape(applicationId: int, now: nat, randomText: string)
    ensures var id := CandidateId(applicationId, now, randomText);
      var app := IntToString(applicationId);
      && |id| >= 10 + |app| + 1
      && id[..10] == "candidate-"
      && id[10..] == app + ("-" + (NatToString(now) + "-" + randomText))
      && id[10 + |app| + 1..] == NatToString(now) + "-" + randomText
  {
    var id := CandidateId(applicationId, now, randomText);
    var app := IntToString(applicationId);
    var rest := NatToString(now) + "-" + randomText;
    assert id == "candidate-" + (app + ("-" + rest));
  }

  /**
   * A drag identity starts with `candidate-`, and `parseInt` reads the
   * application id back after that prefix and the time after the next `-`.
   */
  lemma CandidateIdDecodes(applicationId: int, now: nat, randomText: string)
    ensures StartsWith(CandidateId(applicationId, now, randomText), "candidate-")
    ensures ParseInt(CandidateId(applicationId, now, randomText)[10..]) == Some(applicationId)
    ensures 10 + |IntToString(applicationId)| + 1 <= |CandidateId(applicationId, now, randomText)|
    ensures CandidateId(applicationId, now, randomText)[10 + |IntToString(applicationId)| + 1..]
         == NatToString(now) + "-" + randomText
    ensures ParseInt(CandidateId(applicationId, now, randomText)[10 + |IntToString(applicationId)| + 1..]) == Some(now)
  {
    CandidateIdShape(applicationId, now, randomText);
    CandidateIdReadsApplication(applicationId, now, randomText);
    CandidateIdReadsTime(now, randomText);
  }

  /** `parseInt` after the `candidate-` prefix reads the application id. */
  lemma CandidateIdReadsApplication(applicationId: int, now: nat, randomText: string)
    ensures ParseInt(CandidateId(applicationId, now, randomText)[10..]) == Some(applicationId)
  {
    var id := CandidateId(applicationId, now, randomText);
    var rest := NatToString(now) + "-" + randomText;
    CandidateIdShape(applicationId, now, randomText);
    ParseIntOfIntToString(applicationId, "-" + rest);
  }

  /** `parseInt` of the time and random text reads the time. */
  lemma CandidateIdReadsTime(now: nat, randomText: string)
    ensures ParseInt(NatToString(now) + "-" + randomText) == Some(now)
  {
    ParseIntOfIntToString(now, "-" + randomText);
    assert NatToString(now) + "-" + randomText == IntToString(now) + ("-" + randomText);
  }

  /**
   * Distinct (application id, time, random text) triples give distinct drag
   * identities. Uniqueness therefore rests entirely on those inputs: two
   * candidates normalised in the same millisecond with the same application
   * id and the same random draw collide.
   */
  lemma CandidateIdInjective(a1: int, t1: nat, r1: string, a2: int, t2: nat, r2: string)
    requires CandidateId(a1, t1, r1) == CandidateId(a2, t2, r2)
    ensures a1 == a2 && t1 == t2 && r1 == r2
  {
    CandidateIdDecodes(a1, t1, r1);
    CandidateIdDecodes(a2, t2, r2);
    var tail1, tail2 := NatToString(t1) + "-", NatToString(t2) + "-";
    assert |tail1| == |tail2|;
    assert r1 == (tail1 + r1)[|tail1|..];
    assert r2 == (tail2 + r2)[|tail2|..];
  }

  /**
   * `normalizeScore`: a number clamped into [0, 10]; NaN and values that are
   * not numbers become 0, and the infinities clamp to the ends.
   */
  function NormalizeScore(score: ScoreValue): (r: real)
    ensures 0.0 <= r <= 10.0
    ensures score.Finite? && 0.0 <= score.value <= 10.0 ==> r == score.value
    ensures score.Finite? && score.value < 0.0 ==> r == 0.0
    ensures score.Finite? && score.value > 10.0 ==> r == 10.0
    ensures score == NaN || score == NonNumber || score == NegativeInfinity ==> r == 0.0
    ensures score == PositiveInfinity ==> r == 10.0
  {
    match score
    case NonNumber => 0.0
    case NaN => 0.0
    case PositiveInfinity => 10.0
    case NegativeInfinity => 0.0
    case Finite(v) => if v < 0.0 then 0.0 else if v > 10.0 then 10.0 else v
  }

  /** `validateCandidate`: both the name and the stage are present, non-empty and not blank once trimmed. */
  predicate ValidateCandidate(c: Candidate)
    ensures ValidateCandidate(c) ==>
      && c.fullName.Some? && c.fullName.value != ""
      && c.currentInterviewStep.Some? && c.currentInterviewStep.value != ""
  {
    if c.fullName.None? || c.fullName.value == "" || Trim(c.fullName.value) == "" then false
    else if c.currentInterviewStep.None? || c.currentInterviewStep.value == ""
         || Trim(c.currentInterviewStep.value) == "" then false
    else true
  }

  /**
   * A candidate is valid exactly when its name and its stage are both present
   * and each contains a character that is not white space.
   */
  lemma ValidateCandidateIffNonBlank(c: Candidate)
    ensures ValidateCandidate(c) <==>
      && c.fullName.Some? && !AllWhiteSpace(c.fullName.value)
      && c.currentInterviewStep.Some? && !AllWhiteSpace(c.currentInterviewStep.value)
  {
    if c.fullName.Some? {
      TrimEmptyIffBlank(c.fullName.value);
    }
    if c.currentInterviewStep.Some? {
      TrimEmptyIffBlank(c.currentInterviewStep.value);
    }
  }

  /** `interviewSteps.find(step => step.name === name)`: the first step with that name. */
  function FindStepNamed(steps: seq<InterviewStep>, name: string): (r: Option<InterviewStep>)
    ensures r.None? <==> forall i :: 0 <= i < |steps| ==> steps[i].name != name
    ensures r.Some? ==> exists i :: (0 <= i < |steps| && steps[i] == r.value && steps[i].name == name
      && forall j :: 0 <= j < i ==> steps[j].name != name)
  {
    if steps == [] then None
    else if steps[0].name == name then Some(steps[0])
    else
      var r := FindStepNamed(steps[1..], name);
      assert r.Some? ==> exists i :: (0 <= i < |steps| && steps[i] == r.value && steps[i].name == name
        && forall j :: 0 <= j < i ==> steps[j].name != name) by {
        if r.Some? {
          var i :| 0 <= i < |steps| - 1 && steps[1..][i] == r.value && steps[1..][i].name == name
            && forall j :: 0 <= j < i ==> steps[1..][j].name != name;
          assert steps[i + 1] == r.value;
          forall j | 0 <= j < i + 1 ensures steps[j].name != name {
            if j > 0 { assert steps[j] == steps[1..][j - 1]; }
          }
        }
      }
      r
  }

  /**
   * `interviewStep?.id || 0`: the id of the first step named `stage`, and 0
   * when no step has that name (a matched id of 0 also yields 0).
   */
  function ResolveStepId(steps: seq<InterviewStep>, stage: string): (r: int)
    ensures (forall i :: 0 <= i < |steps| ==> steps[i].name != stage) ==> r == 0
    ensures r != 0 ==> exists i :: (0 <= i < |steps| && steps[i].name == stage && steps[i].id == r
      && forall j :: 0 <= j < i ==> steps[j].name != stage)
    ensures forall i :: (0 <= i < |steps| && steps[i].name == stage
      && (forall j :: 0 <= j < i ==> steps[j].name != stage)) ==> r == steps[i].id
  {
    match FindStepNamed(steps, stage)
    case None => 0
    case Some(step) => if step.id != 0 then step.id else 0
  }

  /**
   * `createCandidateWithId`: the trimmed then sanitised name and stage, the
   * normalised score, the given application id, the step id resolved from the
   * sanitised stage, and a drag identity built from the application id.
   */
  function CreateCandidateWithId(c: Candidate, applicationId: int, steps: seq<InterviewStep>,
                                 sanitize: string -> string, now: nat, randomText: string): (r: CandidateWithId)
    requires c.fullName.Some? && c.currentInterviewStep.Some?
    ensures r.fullName == sanitize(Trim(c.fullName.value))
    ensures r.currentInterviewStep == sanitize(Trim(c.currentInterviewStep.value))
    ensures r.applicationId == applicationId
    ensures r.averageScore == NormalizeScore(c.averageScore)
    ensures r.interviewStepId == ResolveStepId(steps, r.currentInterviewStep)
    ensures r.id == CandidateId(applicationId, now, randomText)
  {
    var name := sanitize(Trim(c.fullName.value));
    var stage := sanitize(Trim(c.currentInterviewStep.value));
    CandidateWithId(
      CandidateId(applicationId, now, randomText),
      applicationId,
      name,
      stage,
      NormalizeScore(c.averageScore),
      ResolveStepId(steps, stage))
  }

  /** `candidate.applicationId || <fallback>`: the record's own id unless it is missing or 0. */
  function ApplicationIdFor(c: Candidate, fallback: FallbackDraw): (r: int)
    ensures c.applicationId.Some? && c.applicationId.value != 0 ==> r == c.applicationId.value
    ensures c.applicationId.None? || c.applicationId.value == 0 ==> r == fallback && 0 <= r < 1000000
  {
    match c.applicationId
    case Some(id) => if id != 0 then id else fallback
    case None => fallback
  }

  /** The candidate `createMultipleCandidates` makes of the record at position `i`. */
  function NormalizeAt(c: Candidate, i: nat, steps: seq<InterviewStep>,
                       sanitize: string -> string, draws: nat -> Entropy): CandidateWithId
    requires c.fullName.Some? && c.currentInterviewStep.Some?
  {
    CreateCandidateWithId(c, ApplicationIdFor(c, draws(i).fallbackApplicationId), steps,
                          sanitize, draws(i).now, draws(i).randomText)
  }

  /**
   * `createMultipleCandidates`: one normalised candidate per record, in the
   * records' order; record `i` consumes the draws `draws(i)`.
   */
  function CreateMultipleCandidates(cs: seq<Candidate>, steps: seq<InterviewStep>,
                                    sanitize: string -> string, draws: nat -> Entropy): (r: seq<CandidateWithId>)
    requires forall i :: 0 <= i < |cs| ==> cs[i].fullName.Some? && cs[i].currentInterviewStep.Some?
    ensures |r| == |cs|
    ensures forall i :: 0 <= i < |cs| ==> r[i] == NormalizeAt(cs[i], i, steps, sanitize, draws)
  {
    seq(|cs|, i requires 0 <= i < |cs| => NormalizeAt(cs[i], i, steps, sanitize, draws))
  }

  /**
   * Every candidate `createMultipleCandidates` returns keeps its record's own
   * non-zero application id, or else carries a generated one in [0, 1000000).
   */
  lemma CreateMultipleApplicationIds(cs: seq<Candidate>, steps: seq<InterviewStep>,
                                     sanitize: string -> string, draws: nat -> Entropy, i: nat)
    requires forall k :: 0 <= k < |cs| ==> cs[k].fullName.Some? && cs[k].currentInterviewStep.Some?
    requires i < |cs|
    ensures var r := CreateMultipleCandidates(cs, steps, sanitize, draws)[i];
      if cs[i].applicationId.Some? && cs[i].applicationId.value != 0
      then r.applicationId == cs[i].applicationId.value
      else 0 <= r.applicationId < 1000000
  {
  }
}
