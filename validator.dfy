/** The result check of the edit-distance example
    (example/edit_distance/Validator.cpp).  The validator owns the
    expected results, which it loads line by line from a CSV file, and
    compares them with the results decoded from the parties' output
    shares.  Reading files and decoding shares are outside the model: the
    CSV arrives as header and cell strings, the actual results as values. */
module Validation {

  datatype ValidationCode = Success | SizeMismatch | ResultMismatch

  /** Edit distances and receiver messages, index by index. */
  datatype EditDistanceResults = EditDistanceResults(editDistances: seq<int>, receiverMessages: seq<string>)

  predicate RowsAgree(actual: EditDistanceResults, expected: EditDistanceResults, i: int)
    requires 0 <= i < |actual.editDistances| && i < |actual.receiverMessages|
    requires i < |expected.editDistances| && i < |expected.receiverMessages|
  {
    actual.editDistances[i] == expected.editDistances[i] &&
    actual.receiverMessages[i] == expected.receiverMessages[i]
  }

  /** The reads of validate stay inside the vectors: either a count
      differs, and validate stops before the rows, or every row index of
      the distances is also an index of the messages. */
  predicate ReadsInBounds(actual: EditDistanceResults, expected: EditDistanceResults)
  {
    || |actual.editDistances| != |expected.editDistances|
    || |actual.receiverMessages| != |expected.receiverMessages|
    || |actual.editDistances| <= |actual.receiverMessages|
  }

  /** Reference outcome of validate: the distance count is compared
      first, then the message count, then the rows in order. */
  function Outcome(actual: EditDistanceResults, expected: EditDistanceResults): (code: ValidationCode)
    requires ReadsInBounds(actual, expected)
  {
    if |actual.editDistances| != |expected.editDistances| then SizeMismatch
    else if |actual.receiverMessages| != |expected.receiverMessages| then SizeMismatch
    else if forall i :: 0 <= i < |actual.editDistances| ==> RowsAgree(actual, expected, i) then Success
    else ResultMismatch
  }

  /** validate succeeds exactly when the distances are equal and the
      messages agree on every row that has a distance; messages past the
      last distance are not compared. */
  lemma OutcomeSuccessIffRowsEqual(actual: EditDistanceResults, expected: EditDistanceResults)
    requires ReadsInBounds(actual, expected)
    ensures Outcome(actual, expected) == Success <==>
      && actual.editDistances == expected.editDistances
      && |actual.receiverMessages| == |expected.receiverMessages|
      && actual.receiverMessages[..|actual.editDistances|] == expected.receiverMessages[..|actual.editDistances|]
  {
    var n := |actual.editDistances|;
    if Outcome(actual, expected) == Success {
      forall i | 0 <= i < n ensures actual.editDistances[i] == expected.editDistances[i]
        && actual.receiverMessages[..n][i] == expected.receiverMessages[..n][i]
      {
        assert RowsAgree(actual, expected, i);
      }
      assert actual.editDistances == expected.editDistances;
      assert actual.receiverMessages[..n] == expected.receiverMessages[..n];
    } else if actual.editDistances == expected.editDistances && |actual.receiverMessages| == |expected.receiverMessages| {
      var i :| 0 <= i < n && !RowsAgree(actual, expected, i);
      assert actual.receiverMessages[..n][i] != expected.receiverMessages[..n][i];
    }
  }

  /** The size checks report a mismatch exactly when a count differs,
      whatever the lengths of the actual vectors. */
  lemma OutcomeSizeMismatch(actual: EditDistanceResults, expected: EditDistanceResults)
    requires ReadsInBounds(actual, expected)
    ensures Outcome(actual, expected) == SizeMismatch <==>
      |actual.editDistances| != |expected.editDistances| || |actual.receiverMessages| != |expected.receiverMessages|
  {
  }

  /** validate succeeds exactly when the two result sets are equal. */
  lemma OutcomeSuccessIffEqual(actual: EditDistanceResults, expected: EditDistanceResults)
    requires |actual.editDistances| == |actual.receiverMessages|
    ensures Outcome(actual, expected) == Success <==> actual == expected
  {
    if Outcome(actual, expected) == Success {
      assert forall i :: 0 <= i < |actual.editDistances| ==> actual.editDistances[i] == expected.editDistances[i]
        by {
          forall i | 0 <= i < |actual.editDistances| ensures actual.editDistances[i] == expected.editDistances[i] {
            assert RowsAgree(actual, expected, i);
          }
        }
      assert forall i :: 0 <= i < |actual.editDistances| ==> actual.receiverMessages[i] == expected.receiverMessages[i]
        by {
          forall i | 0 <= i < |actual.editDistances| ensures actual.receiverMessages[i] == expected.receiverMessages[i] {
            assert RowsAgree(actual, expected, i);
          }
        }
      assert actual.editDistances == expected.editDistances;
      assert actual.receiverMessages == expected.receiverMessages;
    }
  }

  predicate IsDigit(c: char)
  {
    '0' <= c <= '9'
  }

  function DigitsValue(s: string): (v: nat)
    requires forall k :: 0 <= k < |s| ==> IsDigit(s[k])
  {
    if |s| == 0 then 0
    else
      assert IsDigit(s[|s| - 1]);
      10 * DigitsValue(s[..|s| - 1]) + (s[|s| - 1] as int - '0' as int)
  }

  function LeadingDigits(s: string): (n: nat)
    ensures n <= |s| && forall k :: 0 <= k < n ==> IsDigit(s[k])
    ensures n < |s| ==> !IsDigit(s[n])
  {
    if |s| == 0 || !IsDigit(s[0]) then 0 else 1 + LeadingDigits(s[1..])
  }

  /** isspace in the C locale: blank, tab, newline, vertical tab, form
      feed and carriage return. */
  predicate IsSpace(c: char)
  {
    c == ' ' || c == '\t' || c == '\n' || c == '\U{000B}' || c == '\U{000C}' || c == '\r'
  }

  function LeadingSpaces(s: string): (n: nat)
    ensures n <= |s| && forall k :: 0 <= k < n ==> IsSpace(s[k])
    ensures n < |s| ==> !IsSpace(s[n])
  {
    if |s| == 0 || !IsSpace(s[0]) then 0 else 1 + LeadingSpaces(s[1..])
  }

  const Int64Max: int := 0x7fff_ffff_ffff_ffff
  const Int64Min: int := -0x8000_0000_0000_0000

  /** `iss >> parsed` on an int64 that starts at 0: leading blanks are
      skipped, an optional sign and the longest run of digits are read;
      without digits the value is 0, and a value out of range saturates. */
  function ParseInt64(s: string): (v: int)
    ensures Int64Min <= v <= Int64Max
  {
    var t := s[LeadingSpaces(s)..];
    var negative := |t| > 0 && t[0] == '-';
    var u := if |t| > 0 && (t[0] == '-' || t[0] == '+') then t[1..] else t;
    var n := LeadingDigits(u);
    var magnitude := DigitsValue(u[..n]);
    var value: int := if negative then -(magnitude as int) else magnitude;
    if n == 0 then 0
    else if value > Int64Max then Int64Max
    else if value < Int64Min then Int64Min
    else value
  }

  /** Decimal text of a natural number, most significant digit first. */
  function Decimal(n: nat): (s: string)
    ensures |s| > 0 && forall k :: 0 <= k < |s| ==> IsDigit(s[k])
  {
    if n < 10 then [('0' as int + n) as char]
    else Decimal(n / 10) + [('0' as int + n % 10) as char]
  }

  lemma {:induction false} DecimalValue(n: nat)
    ensures DigitsValue(Decimal(n)) == n
  {
    if n >= 10 {
      var s := Decimal(n);
      assert s[..|s| - 1] == Decimal(n / 10);
      DecimalValue(n / 10);
    } else {
      var s := Decimal(n);
      assert s[..|s| - 1] == [];
    }
  }

  lemma {:induction false} LeadingDigitsAll(s: string)
    requires forall k :: 0 <= k < |s| ==> IsDigit(s[k])
    ensures LeadingDigits(s) == |s|
    decreases |s|
  {
    if |s| > 0 {
      LeadingDigitsAll(s[1..]);
    }
  }

  /** The distance column of a CSV written from an int64 reads back as
      that number. */
  lemma ParseDecimal(n: int)
    requires Int64Min <= n <= Int64Max
    ensures ParseInt64(if n < 0 then "-" + Decimal(-n) else Decimal(n)) == n
  {
    var m: nat := if n < 0 then -n else n;
    var s := if n < 0 then "-" + Decimal(m) else Decimal(m);
    assert LeadingSpaces(s) == 0;
    assert s[0..] == s;
    var u := if n < 0 then s[1..] else s;
    assert u == Decimal(m);
    LeadingDigitsAll(u);
    assert u[..|u|] == u;
    DecimalValue(m);
  }

  class Validator {
    /** The expected results, as loaded so far. */
    var expected: EditDistanceResults

    constructor ()
      ensures expected == EditDistanceResults([], [])
    {
      expected := EditDistanceResults([], []);
    }

    /** appendOutputLine: a "distance" cell is parsed as an int64 and
        appended to the distances, a "receiver_message" cell is appended
        verbatim to the messages, any other column is ignored. */
    method AppendOutputLine(header: seq<string>, parts: seq<string>)
      requires |parts| >= |header|
      modifies this
      ensures expected.editDistances ==
        old(expected.editDistances) + DistanceCells(header, parts, |header|)
      ensures expected.receiverMessages ==
        old(expected.receiverMessages) + MessageCells(header, parts, |header|)
    {
      for i := 0 to |header|
        invariant expected.editDistances == old(expected.editDistances) + DistanceCells(header, parts, i)
        invariant expected.receiverMessages == old(expected.receiverMessages) + MessageCells(header, parts, i)
      {
        var column := header[i];
        var value := parts[i];
        assert DistanceCells(header, parts, i + 1) ==
          DistanceCells(header, parts, i) + (if column == "distance" then [ParseInt64(value)] else []);
        assert MessageCells(header, parts, i + 1) ==
          MessageCells(header, parts, i) + (if column == "receiver_message" then [value] else []);
        if column == "distance" {
          var parsed := ParseInt64(value);
          expected := expected.(editDistances := expected.editDistances + [parsed]);
        } else if column == "receiver_message" {
          expected := expected.(receiverMessages := expected.receiverMessages + [value]);
        }
      }
    }

    /** validate: SIZE_MISMATCH when the distance counts differ (checked
        first) or the message counts differ; RESULT_MISMATCH at the first
        row whose distance or message differs; SUCCESS otherwise. */
    method Validate(actual: EditDistanceResults) returns (code: ValidationCode)
      requires ReadsInBounds(actual, expected)
      ensures code == Outcome(actual, expected)
      ensures code == SizeMismatch <==>
        |actual.editDistances| != |expected.editDistances| || |actual.receiverMessages| != |expected.receiverMessages|
      ensures |actual.editDistances| == |actual.receiverMessages| ==> (code == Success <==> actual == expected)
    {
      if |actual.editDistances| == |actual.receiverMessages| {
        OutcomeSuccessIffEqual(actual, expected);
      }
      if |actual.editDistances| != |expected.editDistances| {
        return SizeMismatch;
      }
      if |actual.receiverMessages| != |expected.receiverMessages| {
        return SizeMismatch;
      }
      for i := 0 to |actual.editDistances|
        invariant forall k :: 0 <= k < i ==> RowsAgree(actual, expected, k)
      {
        if actual.editDistances[i] != expected.editDistances[i] {
          assert !RowsAgree(actual, expected, i);
          return ResultMismatch;
        }
        if actual.receiverMessages[i] != expected.receiverMessages[i] {
          assert !RowsAgree(actual, expected, i);
          return ResultMismatch;
        }
      }
      return Success;
    }
  }

  /** The distances a line contributes from its first n columns. */
  function DistanceCells(header: seq<string>, parts: seq<string>, n: nat): (r: seq<int>)
    requires n <= |header| <= |parts|
    ensures |r| <= n
  {
    if n == 0 then []
    else DistanceCells(header, parts, n - 1) + (if header[n - 1] == "distance" then [ParseInt64(parts[n - 1])] else [])
  }

  /** The messages a line contributes from its first n columns. */
  function MessageCells(header: seq<string>, parts: seq<string>, n: nat): (r: seq<string>)
    requires n <= |header| <= |parts|
    ensures |r| <= n
  {
    if n == 0 then []
    else MessageCells(header, parts, n - 1) + (if header[n - 1] == "receiver_message" then [parts[n - 1]] else [])
  }

  /** A line with one distance and one message column adds exactly one
      row: the parsed distance and the message text as written. */
  lemma OneRowPerLine(d: string, m: string)
    ensures DistanceCells(["distance", "receiver_message"], [d, m], 2) == [ParseInt64(d)]
    ensures MessageCells(["distance", "receiver_message"], [d, m], 2) == [m]
  {
  }
}
