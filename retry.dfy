/**
 * The retry-until-valid input helpers (getIntInput, getValidDate,
 * getPositiveDouble): read lines one after another and stop at the first one
 * that parses and meets the helper's requirement. A parser is a total function
 * from a line to an optional number; the stream of console lines is a sequence.
 */
module Retry {
  import opened Wrappers

  /** getIntInput and getValidDate take any parsed value; getPositiveDouble only one above zero. */
  datatype Requirement = AnyValue | PositiveValue

  predicate Accepts(parse: string -> Option<int>, req: Requirement, line: string) {
    parse(line).Some? && (req == PositiveValue ==> parse(line).value > 0)
  }

  /**
   * The index of the first line at or after `from` that is accepted, or
   * |lines| when no remaining line is.
   */
  function FirstAccepted(lines: seq<string>, from: nat, parse: string -> Option<int>, req: Requirement): (k: nat)
    requires from <= |lines|
    ensures from <= k <= |lines|
    decreases |lines| - from
  {
    if from == |lines| || Accepts(parse, req, lines[from]) then from
    else FirstAccepted(lines, from + 1, parse, req)
  }

  /** FirstAccepted finds the first accepted line: every line it skips is rejected. */
  lemma {:induction false} FirstAcceptedIsFirst(lines: seq<string>, from: nat, parse: string -> Option<int>, req: Requirement)
    requires from <= |lines|
    ensures var k := FirstAccepted(lines, from, parse, req);
      && (forall j :: from <= j < k ==> !Accepts(parse, req, lines[j]))
      && (k < |lines| ==> Accepts(parse, req, lines[k]))
    decreases |lines| - from
  {
    if from < |lines| && !Accepts(parse, req, lines[from]) {
      FirstAcceptedIsFirst(lines, from + 1, parse, req);
    }
  }

  /**
   * What one retrying read yields: the value of the first accepted line and
   * the index just past it, or None when the lines run out first.
   */
  function ReadValue(lines: seq<string>, from: nat, parse: string -> Option<int>, req: Requirement)
    : (r: Option<(int, nat)>)
    requires from <= |lines|
    ensures r.Some? ==> from < r.value.1 <= |lines|
    ensures r.Some? && req == PositiveValue ==> r.value.0 > 0
  {
    var k := FirstAccepted(lines, from, parse, req);
    FirstAcceptedIsFirst(lines, from, parse, req);
    if k < |lines| then Some((parse(lines[k]).value, k + 1)) else None
  }

  /** The value a retrying read yields is the parse of the last line it consumed. */
  lemma ReadValueLast(lines: seq<string>, from: nat, parse: string -> Option<int>, req: Requirement)
    requires from <= |lines|
    ensures var r := ReadValue(lines, from, parse, req);
      r.Some? ==> parse(lines[r.value.1 - 1]) == Some(r.value.0)
  {
    FirstAcceptedIsFirst(lines, from, parse, req);
  }

  /**
   * The read-parse-retry loop. On success it has consumed every line up to and
   * including the first accepted one and returns that line's value; when the
   * lines run out first (the source's Scanner throws, which nothing catches)
   * it returns None at the end of input.
   */
  method ReadUntilAccepted(lines: seq<string>, from: nat, parse: string -> Option<int>, req: Requirement)
    returns (r: Option<int>, next: nat)
    requires from <= |lines|
    ensures from <= next <= |lines|
    ensures r.Some? ==> from < next && Accepts(parse, req, lines[next - 1]) && r == parse(lines[next - 1])
    ensures r.None? ==> next == |lines|
    ensures forall j :: from <= j < next - 1 ==> !Accepts(parse, req, lines[j])
    ensures r.None? ==> forall j :: from <= j < |lines| ==> !Accepts(parse, req, lines[j])
    ensures ReadValue(lines, from, parse, req) == if r.Some? then Some((r.value, next)) else None
  {
    var i := from;
    while i < |lines|
      invariant from <= i <= |lines|
      invariant forall j :: from <= j < i ==> !Accepts(parse, req, lines[j])
      invariant FirstAccepted(lines, from, parse, req) == FirstAccepted(lines, i, parse, req)
    {
      var v := parse(lines[i]);
      if v.Some? && (req == PositiveValue ==> v.value > 0) {
        return v, i + 1;
      }
      i := i + 1;
    }
    return None, |lines|;
  }

  /**
   * getPositiveDouble yields the value of the first line that parses to a
   * number greater than zero; every line before it fails to parse or parses to
   * a number at or below zero. When no such line remains, none of them does.
   */
  lemma FirstPositive(lines: seq<string>, from: nat, parse: string -> Option<int>)
    requires from <= |lines|
    ensures match ReadValue(lines, from, parse, PositiveValue)
      case Some((v, next)) =>
        && parse(lines[next - 1]) == Some(v) && v > 0
        && (forall j :: from <= j < next - 1 ==> parse(lines[j]).None? || parse(lines[j]).value <= 0)
      case None =>
        forall j :: from <= j < |lines| ==> parse(lines[j]).None? || parse(lines[j]).value <= 0
  {
    FirstAcceptedIsFirst(lines, from, parse, PositiveValue);
  }
}
