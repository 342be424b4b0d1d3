// The simulated work of the worker: which attempts of a job fail, and with what message
// (worker/job-processing.utils.ts).
module Simulation {
  import opened Wrappers
  import opened ErrorText

  // A JSON value, as a payload column stores it.
  datatype Json =
    | JNull
    | JBool(b: bool)
    | JNumber(n: real)
    | JString(s: Text)
    | JArray(items: seq<Json>)
    | JObject(fields: map<string, Json>)

  const PERMANENT_FAILURE: Text := Ascii("Simulated permanent processing failure")
  const FAILURE_ON_ATTEMPT: Text := Ascii("Simulated failure on attempt ")

  function Decimal(n: nat): Text {
    if n < 10 then [(0x30 + n) as CodeUnit] else Decimal(n / 10) + [(0x30 + n % 10) as CodeUnit]
  }

  predicate IsInteger(n: real) {
    n.Floor as real == n
  }

  // The message of the error that attempt `attemptNumber` throws, if it throws.
  function EvaluateSimulationFailure(payload: Json, attemptNumber: nat): Option<Text> {
    if !payload.JObject? then None
    else if "shouldFail" in payload.fields && payload.fields["shouldFail"] == JBool(true) then
      Some(PERMANENT_FAILURE)
    else if
      && "failUntilAttempt" in payload.fields
      && payload.fields["failUntilAttempt"].JNumber?
      && IsInteger(payload.fields["failUntilAttempt"].n)
      && attemptNumber as real <= payload.fields["failUntilAttempt"].n
    then
      Some(FAILURE_ON_ATTEMPT + Decimal(attemptNumber))
    else None
  }

  predicate ShouldFail(payload: Json) {
    payload.JObject? && "shouldFail" in payload.fields && payload.fields["shouldFail"] == JBool(true)
  }

  // The integer N up to which attempts fail, 0 when the payload asks for none.
  function FailUntil(payload: Json): int {
    if
      && payload.JObject?
      && "failUntilAttempt" in payload.fields
      && payload.fields["failUntilAttempt"].JNumber?
      && IsInteger(payload.fields["failUntilAttempt"].n)
    then payload.fields["failUntilAttempt"].n.Floor
    else 0
  }

  // An attempt fails exactly when the payload says "always", or "up to N" with N at least its number.
  lemma FailsIff(payload: Json, attemptNumber: nat)
    requires attemptNumber >= 1
    ensures EvaluateSimulationFailure(payload, attemptNumber).Some?
      <==> ShouldFail(payload) || attemptNumber <= FailUntil(payload)
  {
  }

  // The message of the failure: "always" comes before "up to", and anything but a boolean true or
  // an integer asks for nothing.
  lemma FailureMessage(payload: Json, attemptNumber: nat)
    ensures EvaluateSimulationFailure(payload, attemptNumber) ==
      if !payload.JObject? then None
      else if "shouldFail" in payload.fields && payload.fields["shouldFail"] == JBool(true) then
        Some(Ascii("Simulated permanent processing failure"))
      else if "failUntilAttempt" !in payload.fields then None
      else
        match payload.fields["failUntilAttempt"]
        case JNumber(n) =>
          if n.Floor as real == n && attemptNumber <= n.Floor then
            Some(Ascii("Simulated failure on attempt ") + Decimal(attemptNumber))
          else None
        case _ => None
  {
  }

  // ---------- The recorded messages ----------

  function ParseDecimal(digits: Text): nat
    requires forall i :: 0 <= i < |digits| ==> 0x30 <= digits[i] <= 0x39
  {
    if digits == [] then 0
    else 10 * ParseDecimal(digits[..|digits| - 1]) + (digits[|digits| - 1] - 0x30) as nat
  }

  // The attempt number in a message can be read back.
  lemma {:induction false} DecimalRoundTrip(n: nat)
    ensures forall i :: 0 <= i < |Decimal(n)| ==> 0x30 <= Decimal(n)[i] <= 0x39
    ensures ParseDecimal(Decimal(n)) == n
    ensures |Decimal(n)| > 1 ==> Decimal(n)[0] != 0x30
  {
    if n >= 10 {
      DecimalRoundTrip(n / 10);
      assert Decimal(n)[..|Decimal(n)| - 1] == Decimal(n / 10);
    } else {
      assert Decimal(n)[..0] == [];
    }
  }

  lemma FailurePrefixUnits()
    ensures FAILURE_ON_ATTEMPT ==
      [0x53, 0x69, 0x6D, 0x75, 0x6C, 0x61, 0x74, 0x65, 0x64, 0x20, 0x66, 0x61, 0x69, 0x6C, 0x75, 0x72,
       0x65, 0x20, 0x6F, 0x6E, 0x20, 0x61, 0x74, 0x74, 0x65, 0x6D, 0x70, 0x74, 0x20]
  {
    var text := "Simulated failure on attempt ";
    assert |text| == 29;
    assert forall i :: 0 <= i < |text| ==> Ascii(text)[i] as int == text[i] as int;
  }

  lemma FailurePrefixSpacing()
    ensures |FAILURE_ON_ATTEMPT| == 29
    ensures SinglySpaced(FAILURE_ON_ATTEMPT[..28]) && FAILURE_ON_ATTEMPT[28] == SPACE
    ensures !IsSpace(FAILURE_ON_ATTEMPT[0]) && !IsSpace(FAILURE_ON_ATTEMPT[27])
  {
    FailurePrefixUnits();
    hide FAILURE_ON_ATTEMPT;
  }

  // A failure up to attempt N is recorded word for word, with the number of its attempt (and cut
  // at the limit, should the number have hundreds of digits).
  lemma RecordedMessage(payload: Json, n: nat)
    requires !ShouldFail(payload) && 1 <= n <= FailUntil(payload)
    ensures EvaluateSimulationFailure(payload, n).Some?
    ensures SanitizeProcessingError(ErrorObject(EvaluateSimulationFailure(payload, n).value))
         == Truncate(Ascii("Simulated failure on attempt ") + Decimal(n), 500)
  {
    var t := FAILURE_ON_ATTEMPT + Decimal(n);
    FailsIff(payload, n);
    FailurePrefixSpacing();
    DecimalRoundTrip(n);
    DigitsAreVisible(Decimal(n));
    assert Decimal(n) != [];
    forall i | 0 <= i < |t| && IsSpace(t[i])
      ensures t[i] == SPACE && (i + 1 < |t| ==> !IsSpace(t[i + 1]))
    {
      if i < 28 {
        assert t[i] == FAILURE_ON_ATTEMPT[..28][i];
        assert i < 27 ==> t[i + 1] == FAILURE_ON_ATTEMPT[..28][i + 1];
      }
    }
    NormalIsOnlyCut(t);
  }

  lemma DigitsAreVisible(digits: Text)
    requires forall i :: 0 <= i < |digits| ==> 0x30 <= digits[i] <= 0x39
    ensures forall i :: 0 <= i < |digits| ==> !IsSpace(digits[i])
  {
  }
}
