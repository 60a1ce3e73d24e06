/** The reader of `.cpmp` instance files: a header line `nlocations
    nclusters`, `nlocations` distance rows, one demand line and one capacity
    line. A line whose first token is not numeric is skipped but still uses
    up its slot. The file's lines are the input; opening the file and
    echoing the lines are outside the model. */
module ReaderCpmp {
  import opened Text

  datatype Result<T, E> = Ok(value: T) | Err(error: E)

  /** What `read_instance` raises: a failed `assert`, or the
      `UnboundLocalError` of reading `is_int` before it was assigned. */
  datatype ReadError = AssertionFailed | UnboundLocal

  /** The local `is_int`: not yet assigned, or holding a truth value. */
  datatype Flag = Unbound | Bound(b: bool)

  /** The returned tuple; stored values are the raw tokens. */
  datatype Instance = Instance(nlocations: nat, nclusters: int, distances: map<(int, int), string>,
                               demands: map<int, string>, capacities: map<int, string>)

  // ---------------------------------------------------------------- tokens

  /** Python's whitespace (`str.isspace`), which `str.split()` splits on. */
  predicate IsSpace(c: char) {
    || ('\t' <= c <= '\r') || ('\U{1C}' <= c <= '\U{1F}') || c == ' ' || c == '\U{85}' || c == '\U{A0}'
    || c == '\U{1680}' || ('\U{2000}' <= c <= '\U{200A}') || c == '\U{2028}' || c == '\U{2029}'
    || c == '\U{202F}' || c == '\U{205F}' || c == '\U{3000}'
  }

  predicate NoSpace(s: string) {
    forall i :: 0 <= i < |s| ==> !IsSpace(s[i])
  }

  /** A token as `split()` produces it: non-empty, without whitespace. */
  predicate IsToken(t: string) {
    |t| > 0 && NoSpace(t)
  }

  /** Length of the run of non-whitespace characters that starts `s`. */
  function TokenLength(s: string): (k: nat)
    ensures k <= |s|
    ensures forall i :: 0 <= i < k ==> !IsSpace(s[i])
    ensures k < |s| ==> IsSpace(s[k])
  {
    if |s| == 0 || IsSpace(s[0]) then 0 else 1 + TokenLength(s[1..])
  }

  /** `s.split()`: the maximal runs of non-whitespace characters, in order. */
  function Split(s: string): (r: seq<string>)
    ensures forall i :: 0 <= i < |r| ==> IsToken(r[i])
    decreases |s|
  {
    if |s| == 0 then []
    else if IsSpace(s[0]) then Split(s[1..])
    else
      var k := TokenLength(s);
      assert k > 0;
      [s[..k]] + Split(s[k..])
  }

  /** `" ".join(tokens)`. */
  function Join(tokens: seq<string>): string {
    if |tokens| == 0 then ""
    else if |tokens| == 1 then tokens[0]
    else tokens[0] + " " + Join(tokens[1..])
  }

  lemma {:induction false} TokenLengthOf(t: string, rest: string)
    requires NoSpace(t) && (|rest| == 0 || IsSpace(rest[0]))
    ensures TokenLength(t + rest) == |t|
  {
    if |t| > 0 {
      assert (t + rest)[1..] == t[1..] + rest;
      TokenLengthOf(t[1..], rest);
    }
  }

  /** Splitting a line of tokens joined by single spaces gives them back. */
  lemma {:induction false} SplitJoin(tokens: seq<string>)
    requires forall i :: 0 <= i < |tokens| ==> IsToken(tokens[i])
    ensures Split(Join(tokens)) == tokens
  {
    if |tokens| == 1 {
      var t := tokens[0];
      TokenLengthOf(t, "");
      assert t + "" == t;
      assert t[..|t|] == t && t[|t|..] == "";
    } else if |tokens| > 1 {
      var t, rest := tokens[0], Join(tokens[1..]);
      var s := t + " " + rest;
      assert s == t + (" " + rest);
      TokenLengthOf(t, " " + rest);
      assert s[..|t|] == t;
      assert s[|t|..] == " " + rest;
      assert (" " + rest)[1..] == rest;
      SplitJoin(tokens[1..]);
      assert tokens == [t] + tokens[1..];
    }
  }

  // ---------------------------------------------------------------- numbers

  /** `str.isnumeric()`, for ASCII text: non-empty and all decimal digits. */
  predicate IsNumeric(s: string) {
    |s| > 0 && AllDigits(s)
  }

  function StripLeading(s: string): (r: string)
    ensures |r| <= |s| && (|r| > 0 ==> !IsSpace(r[0]))
  {
    if |s| > 0 && IsSpace(s[0]) then StripLeading(s[1..]) else s
  }

  function StripTrailing(s: string): (r: string)
    ensures |r| <= |s| && (|r| > 0 ==> !IsSpace(r[|r| - 1]))
  {
    if |s| > 0 && IsSpace(s[|s| - 1]) then StripTrailing(s[..|s| - 1]) else s
  }

  /** `str.strip()`: the surrounding whitespace is ignored by `int()`. */
  function Strip(s: string): string {
    StripTrailing(StripLeading(s))
  }

  /** Decimal digits, with single underscores allowed between two digits. */
  predicate DigitGroups(s: string) {
    && |s| > 0 && IsDigit(s[0]) && IsDigit(s[|s| - 1])
    && (forall i :: 0 <= i < |s| ==> IsDigit(s[i]) || s[i] == '_')
    && (forall i :: 0 <= i < |s| - 1 ==> s[i] == '_' ==> s[i + 1] != '_')
  }

  /** What `int()` accepts once stripped: an optional sign, then digit groups. */
  predicate IntegerLiteral(t: string) {
    if |t| > 0 && (t[0] == '+' || t[0] == '-') then DigitGroups(t[1..]) else DigitGroups(t)
  }

  /** `is_integer(s)`: whether `int(s)` succeeds. */
  predicate IsInteger(s: string) {
    IntegerLiteral(Strip(s))
  }

  function RemoveUnderscores(s: string): (r: string)
    ensures (forall i :: 0 <= i < |s| ==> IsDigit(s[i]) || s[i] == '_') ==> AllDigits(r)
    ensures AllDigits(s) ==> r == s
  {
    if |s| == 0 then ""
    else
      assert forall i :: 0 <= i < |s| - 1 ==> s[1..][i] == s[i + 1];
      (if s[0] == '_' then "" else [s[0]]) + RemoveUnderscores(s[1..])
  }

  function LiteralValue(t: string): int
    requires IntegerLiteral(t)
  {
    if |t| > 0 && t[0] == '-' then -(DigitsValue(RemoveUnderscores(t[1..])) as int)
    else if |t| > 0 && t[0] == '+' then DigitsValue(RemoveUnderscores(t[1..]))
    else DigitsValue(RemoveUnderscores(t))
  }

  /** `int(s)`, where `is_integer(s)` holds. */
  function ParseInt(s: string): int
    requires IsInteger(s)
  {
    LiteralValue(Strip(s))
  }

  lemma StripToken(s: string)
    requires NoSpace(s)
    ensures Strip(s) == s
  {
  }

  /** A numeric token is an integer, and `int` reads it as its digits' value. */
  lemma NumericIsInteger(s: string)
    requires IsNumeric(s)
    ensures IsInteger(s) && ParseInt(s) == DigitsValue(s)
  {
    StripToken(s);
  }

  /** `str(x)` for any integer. */
  function IntToString(x: int): (s: string)
    ensures IsToken(s)
  {
    if x < 0 then "-" + NatToString(-x) else NatToString(x)
  }

  /** `int(str(x)) == x`. */
  lemma IntToStringRoundTrip(x: int)
    ensures IsInteger(IntToString(x)) && ParseInt(IntToString(x)) == x
  {
    if x < 0 {
      NegativeRoundTrip(-x);
    } else {
      StripToken(NatToString(x));
      NatToStringRoundTrip(x);
    }
  }

  lemma NegativeRoundTrip(m: nat)
    requires m > 0
    ensures IsInteger("-" + NatToString(m)) && ParseInt("-" + NatToString(m)) == -(m as int)
  {
    var s := "-" + NatToString(m);
    StripToken(s);
    assert s[1..] == NatToString(m);
    NatToStringRoundTrip(m);
  }

  /** `int()` takes a sign, */
  lemma SignedLiteral()
    ensures IsInteger("-7") && ParseInt("-7") == -7
  {
    assert "-7"[1..] == "7";
  }

  /** single underscores between digits, */
  lemma UnderscoreLiteral()
    ensures IsInteger("+1_0") && ParseInt("+1_0") == 10
  {
    var t := "+1_0";
    StripToken(t);
    assert t[1..] == "1_0";
    TenWithUnderscore();
  }

  lemma TenWithUnderscore()
    ensures DigitGroups("1_0") && DigitsValue(RemoveUnderscores("1_0")) == 10
  {
    assert RemoveUnderscores("1_0") == "10" by {
      assert "1_0"[1..] == "_0" && "_0"[1..] == "0";
      assert "10"[1..] == "0";
    }
    assert DigitsValue("10") == 10 by {
      assert "10"[..1] == "1";
    }
  }

  /** and surrounding whitespace. */
  lemma PaddedLiteral()
    ensures IsInteger(" 3\n") && ParseInt(" 3\n") == 3
  {
    assert StripLeading(" 3\n") == "3\n" by {
      assert " 3\n"[1..] == "3\n";
    }
    assert StripTrailing("3\n") == "3" by {
      assert "3\n"[..1] == "3";
    }
  }

  /** `int()` refuses the empty string, a lone sign, doubled or leading
      underscores and a decimal point. */
  lemma IntegerSyntaxRejected()
    ensures !IsInteger("") && !IsInteger("-") && !IsInteger("_1")
    ensures !IsInteger("1__0") && !IsInteger("1.5")
  {
    assert "-"[1..] == "";
    StripToken("1__0");
    assert "1__0"[1] == '_' && "1__0"[2] == '_';
    StripToken("1.5");
    assert "1.5"[1] == '.';
  }

  // ---------------------------------------------------------------- lines

  /** `fp.readline()` for the `k`-th line: the empty string past the end. */
  function LineAt(lines: seq<string>, k: nat): string {
    if k < |lines| then lines[k] else ""
  }

  /** The tokens of the `n` distance rows: row `r` is line `r + 1`. */
  function DistanceRows(lines: seq<string>, n: nat): (rows: seq<seq<string>>)
    ensures |rows| == n
  {
    seq(n, r requires 0 <= r => Split(LineAt(lines, r + 1)))
  }

  /** `len(sp) > 0 and sp[0].isnumeric()`: whether the line is read at all. */
  predicate NumericLed(sp: seq<string>) {
    |sp| > 0 && IsNumeric(sp[0])
  }

  predicate AllInteger(sp: seq<string>) {
    forall k :: 0 <= k < |sp| ==> IsInteger(sp[k])
  }

  /** Lines 34-42: a numeric-led header needs exactly two integer tokens. */
  function Header(sp: seq<string>): Result<(nat, int), ReadError> {
    if !NumericLed(sp) then Ok((0, 0))
    else if |sp| != 2 then Err(AssertionFailed)
    else if !(IsInteger(sp[0]) && IsInteger(sp[1])) then Err(AssertionFailed)
    else Ok((DigitsValue(sp[0]), ParseInt(sp[1])))
  }

  /** `distances[i, j] = row[j]` for every `j`, oldest first. */
  function AddRow(m: map<(int, int), string>, i: int, row: seq<string>): (r: map<(int, int), string>)
    ensures forall key :: key in r <==> key in m || (key.0 == i && 0 <= key.1 < |row|)
    ensures forall key :: key in r ==> r[key] == if key.0 == i && 0 <= key.1 < |row| then row[key.1] else m[key]
  {
    if |row| == 0 then m else AddRow(m, i, row[..|row| - 1])[(i, |row| - 1) := row[|row| - 1]]
  }

  /** `values[j] = row[j]` for every `j`, oldest first. */
  function AddValues(m: map<int, string>, row: seq<string>): (r: map<int, string>)
    ensures forall j :: j in r <==> j in m || 0 <= j < |row|
    ensures forall j :: j in r ==> r[j] == if 0 <= j < |row| then row[j] else m[j]
  {
    if |row| == 0 then m else AddValues(m, row[..|row| - 1])[|row| - 1 := row[|row| - 1]]
  }

  /** One pass of the distance loop, lines 53-63, for row `i`. */
  function DistanceRow(sp: seq<string>, n: nat, i: int, st: (Flag, map<(int, int), string>))
    : Result<(Flag, map<(int, int), string>), ReadError>
  {
    if !NumericLed(sp) then Ok(st)
    else if |sp| != n then Err(AssertionFailed)
    else if !AllInteger(sp) then Err(AssertionFailed)
    else Ok((Bound(true), AddRow(st.1, i, sp)))
  }

  /** The first `i` passes of the distance loop, starting with `is_int` as `start`. */
  function DistanceBlock(rows: seq<seq<string>>, n: nat, i: nat, start: Flag)
    : Result<(Flag, map<(int, int), string>), ReadError>
    requires i <= |rows|
  {
    if i == 0 then Ok((start, map[]))
    else match DistanceBlock(rows, n, i - 1, start)
      case Err(e) => Err(e)
      case Ok(st) => DistanceRow(rows[i - 1], n, i - 1, st)
  }

  /** The demand line (lines 71-79) or the capacity line (lines 87-95). The
      loop reads `is_int` before assigning it, so an unassigned flag raises
      as soon as the line passes the length check. */
  function ValueLine(sp: seq<string>, n: nat, flag: Flag): Result<(Flag, map<int, string>), ReadError> {
    if !NumericLed(sp) then Ok((flag, map[]))
    else if |sp| != n then Err(AssertionFailed)
    else if flag.Unbound? then Err(UnboundLocal)
    else if !(flag.b && AllInteger(sp)) then Err(AssertionFailed)
    else Ok((Bound(true), AddValues(map[], sp)))
  }

  /** `read_instance`, with `is_int` initially `start`: `Unbound` as
      written, `Bound(true)` once it is assigned before the loops. */
  function Parse(lines: seq<string>, start: Flag): Result<Instance, ReadError> {
    var header := Header(Split(LineAt(lines, 0)));
    if header.Err? then Err(header.error) else ReadBody(lines, header.value.0, header.value.1, start)
  }

  /** Everything after the header line, lines 45-97. */
  function ReadBody(lines: seq<string>, n: nat, nclusters: int, start: Flag): Result<Instance, ReadError> {
    var block := DistanceBlock(DistanceRows(lines, n), n, n, start);
    if block.Err? then Err(block.error)
    else ReadValues(Split(LineAt(lines, n + 1)), Split(LineAt(lines, n + 2)), n, nclusters, block.value)
  }

  /** The demand and capacity lines, after the distance loop left `st`. */
  function ReadValues(dsp: seq<string>, csp: seq<string>, n: nat, nclusters: int, st: (Flag, map<(int, int), string>))
    : Result<Instance, ReadError>
  {
    var demand := ValueLine(dsp, n, st.0);
    if demand.Err? then Err(demand.error)
    else
      var capacity := ValueLine(csp, n, demand.value.0);
      if capacity.Err? then Err(capacity.error)
      else Ok(Instance(n, nclusters, st.1, demand.value.1, capacity.value.1))
  }

  // ---------------------------------------------------------------- reference

  /** A line the reader accepts: skipped, or exactly `n` integer tokens. */
  predicate RowOk(sp: seq<string>, n: nat) {
    !NumericLed(sp) || (|sp| == n && AllInteger(sp))
  }

  /** `nlocations` as the header gives it (0 when the header is skipped or bad). */
  function Locations(lines: seq<string>): nat {
    var h := Header(Split(LineAt(lines, 0)));
    if h.Ok? then h.value.0 else 0
  }

  /** Every line the reader looks at is well formed. */
  ghost predicate WellFormed(lines: seq<string>) {
    RowOk(Split(LineAt(lines, 0)), 2) && BodyWellFormed(lines, Locations(lines))
  }

  /** The `n` distance rows and the demand and capacity lines are well formed. */
  ghost predicate BodyWellFormed(lines: seq<string>, n: nat) {
    && (forall r :: 0 <= r < n ==> RowOk(DistanceRows(lines, n)[r], n))
    && RowOk(Split(LineAt(lines, n + 1)), n)
    && RowOk(Split(LineAt(lines, n + 2)), n)
  }

  /** The distances hold token `j` of row `i` for every numeric-led row `i`
      below `i0` and nothing else. */
  ghost predicate DistancesFrom(m: map<(int, int), string>, rows: seq<seq<string>>, i0: nat, n: nat) {
    && i0 <= |rows|
    && (forall key :: key in m <==> 0 <= key.0 < i0 && 0 <= key.1 < n && NumericLed(rows[key.0]))
    && (forall key :: key in m ==> key.1 < |rows[key.0]| && m[key] == rows[key.0][key.1])
  }

  /** The values hold token `j` of a numeric-led line for every `j < n`. */
  ghost predicate ValuesFrom(m: map<int, string>, sp: seq<string>, n: nat) {
    && (forall j :: j in m <==> NumericLed(sp) && 0 <= j < n)
    && (forall j :: j in m ==> j < |sp| && m[j] == sp[j])
  }

  /** The first `i` distance rows fail exactly when one of them is bad,
      and then on a failed assertion. */
  lemma {:induction false} BlockOk(rows: seq<seq<string>>, n: nat, i: nat, start: Flag)
    requires i <= |rows|
    ensures DistanceBlock(rows, n, i, start).Ok? <==> forall r :: 0 <= r < i ==> RowOk(rows[r], n)
    ensures DistanceBlock(rows, n, i, start).Err? ==> DistanceBlock(rows, n, i, start).error == AssertionFailed
  {
    if i > 0 {
      BlockOk(rows, n, i - 1, start);
    }
  }

  /** The distance loop leaves `is_int` as it started or `true`. */
  lemma {:induction false} BlockFlag(rows: seq<seq<string>>, n: nat, i: nat, start: Flag)
    requires i <= |rows| && DistanceBlock(rows, n, i, start).Ok?
    ensures DistanceBlock(rows, n, i, start).value.0 in {start, Bound(true)}
  {
    if i > 0 {
      BlockFlag(rows, n, i - 1, start);
    }
  }

  /** The distances hold exactly the tokens of the numeric-led rows. */
  lemma {:induction false} BlockContents(rows: seq<seq<string>>, n: nat, i: nat, start: Flag)
    requires i <= |rows| && DistanceBlock(rows, n, i, start).Ok?
    ensures DistancesFrom(DistanceBlock(rows, n, i, start).value.1, rows, i, n)
  {
    if i > 0 {
      var prev := DistanceBlock(rows, n, i - 1, start);
      assert prev.Ok?;
      BlockContents(rows, n, i - 1, start);
      BlockNext(rows, n, i - 1, start, prev.value);
      RowAdvance(prev.value, rows, i - 1, n);
    }
  }

  /** A pass that succeeds extends the distances by its row, if numeric-led. */
  lemma RowAdvance(st: (Flag, map<(int, int), string>), rows: seq<seq<string>>, i: nat, n: nat)
    requires i < |rows| && DistancesFrom(st.1, rows, i, n) && DistanceRow(rows[i], n, i, st).Ok?
    ensures DistancesFrom(DistanceRow(rows[i], n, i, st).value.1, rows, i + 1, n)
  {
    if NumericLed(rows[i]) {
      RowStep(st.1, rows, i, n);
    } else {
      RowSkip(st.1, rows, i, n);
    }
  }

  lemma RowSkip(m: map<(int, int), string>, rows: seq<seq<string>>, i: nat, n: nat)
    requires i < |rows| && DistancesFrom(m, rows, i, n) && !NumericLed(rows[i])
    ensures DistancesFrom(m, rows, i + 1, n)
  {
  }

  lemma RowStep(m: map<(int, int), string>, rows: seq<seq<string>>, i: nat, n: nat)
    requires i < |rows| && DistancesFrom(m, rows, i, n) && NumericLed(rows[i]) && |rows[i]| == n
    ensures DistancesFrom(AddRow(m, i, rows[i]), rows, i + 1, n)
  {
  }

  lemma BlockNext(rows: seq<seq<string>>, n: nat, i: nat, start: Flag, st: (Flag, map<(int, int), string>))
    requires i < |rows| && DistanceBlock(rows, n, i, start) == Ok(st)
    ensures DistanceBlock(rows, n, i + 1, start) == DistanceRow(rows[i], n, i, st)
  {
  }

  /** Once a pass fails, the whole distance loop fails with its error. */
  lemma {:induction false} BlockErrorSticks(rows: seq<seq<string>>, n: nat, i: nat, k: nat, start: Flag)
    requires i <= k <= |rows| && DistanceBlock(rows, n, i, start).Err?
    ensures DistanceBlock(rows, n, k, start) == DistanceBlock(rows, n, i, start)
  {
    if i < k {
      BlockErrorSticks(rows, n, i, k - 1, start);
    }
  }

  /** The header gives `nlocations` and `nclusters` exactly when it is numeric-led. */
  lemma HeaderFacts(sp: seq<string>)
    ensures Header(sp).Ok? <==> RowOk(sp, 2)
    ensures Header(sp).Err? ==> Header(sp).error == AssertionFailed
    ensures Header(sp).Ok? && NumericLed(sp) ==> Header(sp).value == (DigitsValue(sp[0]), ParseInt(sp[1]))
    ensures Header(sp).Ok? && !NumericLed(sp) ==> Header(sp).value == (0, 0)
  {
    if NumericLed(sp) {
      NumericIsInteger(sp[0]);
    }
  }

  /** The demand or capacity line fails exactly when it is numeric-led and
      either bad or reached with `is_int` not `true`, raising
      `UnboundLocalError` when `is_int` is unassigned; otherwise it holds
      the line's tokens. */
  lemma ValueLineFacts(sp: seq<string>, n: nat, flag: Flag)
    ensures ValueLine(sp, n, flag).Ok? <==> !NumericLed(sp) || (|sp| == n && AllInteger(sp) && flag == Bound(true))
    ensures ValueLine(sp, n, flag).Err? ==>
      ValueLine(sp, n, flag).error == if |sp| == n && flag.Unbound? then UnboundLocal else AssertionFailed
    ensures ValueLine(sp, n, flag).Ok? ==>
      && ValuesFrom(ValueLine(sp, n, flag).value.1, sp, n)
      && ValueLine(sp, n, flag).value.0 == if NumericLed(sp) then Bound(true) else flag
  {
  }

  /** The demand and capacity lines, reached with `is_int` true, succeed
      exactly when both are well formed, and hold their tokens. */
  lemma ReadValuesFacts(dsp: seq<string>, csp: seq<string>, n: nat, nclusters: int, st: (Flag, map<(int, int), string>))
    ensures st.0 == Bound(true) ==>
      && (ReadValues(dsp, csp, n, nclusters, st).Ok? <==> RowOk(dsp, n) && RowOk(csp, n))
      && (ReadValues(dsp, csp, n, nclusters, st).Err? ==> ReadValues(dsp, csp, n, nclusters, st).error == AssertionFailed)
    ensures ReadValues(dsp, csp, n, nclusters, st).Ok? ==>
      var inst := ReadValues(dsp, csp, n, nclusters, st).value;
      && inst.nlocations == n && inst.nclusters == nclusters && inst.distances == st.1
      && ValuesFrom(inst.demands, dsp, n) && ValuesFrom(inst.capacities, csp, n)
  {
    ValueLineFacts(dsp, n, st.0);
    var demand := ValueLine(dsp, n, st.0);
    if demand.Ok? {
      ValueLineFacts(csp, n, demand.value.0);
    }
  }

  /** Everything after the header, with `is_int` true at the start, succeeds
      exactly on well-formed lines; a success holds the numeric-led lines'
      tokens whatever `is_int` started as. */
  lemma ReadBodyFacts(lines: seq<string>, n: nat, nclusters: int, start: Flag)
    ensures start == Bound(true) ==>
      && (ReadBody(lines, n, nclusters, start).Ok? <==> BodyWellFormed(lines, n))
      && (ReadBody(lines, n, nclusters, start).Err? ==> ReadBody(lines, n, nclusters, start).error == AssertionFailed)
    ensures ReadBody(lines, n, nclusters, start).Ok? ==>
      var inst := ReadBody(lines, n, nclusters, start).value;
      && inst.nlocations == n && inst.nclusters == nclusters
      && DistancesFrom(inst.distances, DistanceRows(lines, n), n, n)
      && ValuesFrom(inst.demands, Split(LineAt(lines, n + 1)), n)
      && ValuesFrom(inst.capacities, Split(LineAt(lines, n + 2)), n)
  {
    var rows := DistanceRows(lines, n);
    BlockOk(rows, n, n, start);
    var block := DistanceBlock(rows, n, n, start);
    if block.Ok? {
      BlockFlag(rows, n, n, start);
      BlockContents(rows, n, n, start);
      ReadValuesFacts(Split(LineAt(lines, n + 1)), Split(LineAt(lines, n + 2)), n, nclusters, block.value);
    }
  }

  /** With `is_int` assigned before the loops the reader succeeds exactly
      on well-formed lines, and otherwise fails an assertion: it never
      raises `UnboundLocalError`. */
  lemma ParseSucceedsIff(lines: seq<string>)
    ensures Parse(lines, Bound(true)).Ok? <==> WellFormed(lines)
    ensures Parse(lines, Bound(true)).Err? ==> Parse(lines, Bound(true)).error == AssertionFailed
  {
    var hdr := Split(LineAt(lines, 0));
    HeaderFacts(hdr);
    if Header(hdr).Ok? {
      ReadBodyFacts(lines, Header(hdr).value.0, Header(hdr).value.1, Bound(true));
    }
  }

  /** A successful read returns the header's numbers and the raw tokens of
      the numeric-led lines, whatever `is_int` started as. */
  lemma ParseContents(lines: seq<string>, start: Flag)
    requires Parse(lines, start).Ok?
    ensures var inst := Parse(lines, start).value;
      var hdr := Split(LineAt(lines, 0));
      var n := inst.nlocations;
      && (NumericLed(hdr) ==> |hdr| == 2 && AllInteger(hdr) && n == DigitsValue(hdr[0]) && inst.nclusters == ParseInt(hdr[1]))
      && (!NumericLed(hdr) ==> n == 0 && inst.nclusters == 0)
      && DistancesFrom(inst.distances, DistanceRows(lines, n), n, n)
      && ValuesFrom(inst.demands, Split(LineAt(lines, n + 1)), n)
      && ValuesFrom(inst.capacities, Split(LineAt(lines, n + 2)), n)
  {
    var hdr := Split(LineAt(lines, 0));
    HeaderFacts(hdr);
    ReadBodyFacts(lines, Header(hdr).value.0, Header(hdr).value.1, start);
  }

  /** With `is_int` assigned before the loops, `UnboundLocalError` is never raised. */
  lemma CorrectedNeverUnbound(lines: seq<string>)
    ensures Parse(lines, Bound(true)) != Err(UnboundLocal)
  {
    ParseSucceedsIff(lines);
  }

  /** The distance loop does the same from either starting flag, apart from
      the flag itself while no row has been read. */
  lemma {:induction false} BlockStartIrrelevant(rows: seq<seq<string>>, n: nat, i: nat)
    requires i <= |rows|
    ensures DistanceBlock(rows, n, i, Unbound).Err? == DistanceBlock(rows, n, i, Bound(true)).Err?
    ensures DistanceBlock(rows, n, i, Unbound).Err? ==>
      DistanceBlock(rows, n, i, Unbound) == DistanceBlock(rows, n, i, Bound(true))
    ensures DistanceBlock(rows, n, i, Unbound).Ok? ==>
      && DistanceBlock(rows, n, i, Unbound).value.1 == DistanceBlock(rows, n, i, Bound(true)).value.1
      && DistanceBlock(rows, n, i, Bound(true)).value.0 == Bound(true)
      && DistanceBlock(rows, n, i, Unbound).value.0 in {Unbound, Bound(true)}
  {
    if i > 0 {
      BlockStartIrrelevant(rows, n, i - 1);
    }
  }

  /** The reader as written differs from the corrected one only by raising
      `UnboundLocalError`. */
  lemma AsWrittenAgreesOtherwise(lines: seq<string>)
    requires Parse(lines, Unbound) != Err(UnboundLocal)
    ensures Parse(lines, Unbound) == Parse(lines, Bound(true))
  {
    var h := Header(Split(LineAt(lines, 0)));
    if h.Ok? {
      BodyAgrees(lines, h.value.0, h.value.1);
    }
  }

  lemma BodyAgrees(lines: seq<string>, n: nat, nclusters: int)
    requires ReadBody(lines, n, nclusters, Unbound) != Err(UnboundLocal)
    ensures ReadBody(lines, n, nclusters, Unbound) == ReadBody(lines, n, nclusters, Bound(true))
  {
    var rows := DistanceRows(lines, n);
    BlockStartIrrelevant(rows, n, n);
    var block := DistanceBlock(rows, n, n, Unbound);
    if block.Ok? {
      ValuesAgree(Split(LineAt(lines, n + 1)), Split(LineAt(lines, n + 2)), n, nclusters, block.value.0, block.value.1);
    }
  }

  lemma ValuesAgree(d: seq<string>, c: seq<string>, n: nat, nclusters: int, flag: Flag, m: map<(int, int), string>)
    requires flag in {Unbound, Bound(true)}
    requires ReadValues(d, c, n, nclusters, (flag, m)) != Err(UnboundLocal)
    ensures ReadValues(d, c, n, nclusters, (flag, m)) == ReadValues(d, c, n, nclusters, (Bound(true), m))
  {
    ValueLineFacts(d, n, flag);
    ValueLineFacts(d, n, Bound(true));
    var demand := ValueLine(d, n, flag);
    if demand.Ok? {
      ValueLineFacts(c, n, demand.value.0);
      ValueLineFacts(c, n, ValueLine(d, n, Bound(true)).value.0);
    }
  }

  lemma AddTwoValues(a: string, b: string)
    ensures AddValues(map[], [a, b]) == map[0 := a, 1 := b]
  {
    assert [a, b][..1] == [a];
    assert [a][..0] == [];
  }

  /** While no row is read, the distance loop leaves `is_int` and the
      distances as they started. */
  lemma {:induction false} BlockNoneRead(rows: seq<seq<string>>, n: nat, i: nat, start: Flag)
    requires i <= |rows| && forall r :: 0 <= r < i ==> !NumericLed(rows[r])
    ensures DistanceBlock(rows, n, i, start) == Ok((start, map[]))
  {
    if i > 0 {
      BlockNoneRead(rows, n, i - 1, start);
    }
  }

  /** Once a row is read, `is_int` is `true` after the distance loop. */
  lemma {:induction false} BlockSomeRead(rows: seq<seq<string>>, n: nat, i: nat, start: Flag, r0: nat)
    requires r0 < i <= |rows| && NumericLed(rows[r0]) && DistanceBlock(rows, n, i, start).Ok?
    ensures DistanceBlock(rows, n, i, start).value.0 == Bound(true)
  {
    if r0 < i - 1 {
      BlockSomeRead(rows, n, i - 1, start, r0);
    }
  }

  /** No distance row is read, and the first of the demand and capacity
      lines that is read has `n` tokens. */
  ghost predicate ReachesUnbound(lines: seq<string>, n: nat) {
    var d, c := Split(LineAt(lines, n + 1)), Split(LineAt(lines, n + 2));
    && (forall r :: 0 <= r < n ==> !NumericLed(DistanceRows(lines, n)[r]))
    && ((NumericLed(d) && |d| == n) || (!NumericLed(d) && NumericLed(c) && |c| == n))
  }

  /** The reader as written raises `UnboundLocalError` exactly when the
      header is well formed, no distance row is read, and the first of the
      demand and capacity lines that is read has `nlocations` tokens. */
  lemma AsWrittenRaisesIff(lines: seq<string>)
    ensures Parse(lines, Unbound) == Err(UnboundLocal) <==>
      RowOk(Split(LineAt(lines, 0)), 2) && ReachesUnbound(lines, Locations(lines))
  {
    var hdr := Split(LineAt(lines, 0));
    HeaderFacts(hdr);
    if Header(hdr).Ok? {
      BodyRaisesIff(lines, Header(hdr).value.0, Header(hdr).value.1);
    }
  }

  /** Past the header, the reader as written raises `UnboundLocalError`
      exactly on `ReachesUnbound`. */
  lemma BodyRaisesIff(lines: seq<string>, n: nat, nclusters: int)
    ensures ReadBody(lines, n, nclusters, Unbound) == Err(UnboundLocal) <==> ReachesUnbound(lines, n)
  {
    var rows := DistanceRows(lines, n);
    var d, c := Split(LineAt(lines, n + 1)), Split(LineAt(lines, n + 2));
    BlockOk(rows, n, n, Unbound);
    var block := DistanceBlock(rows, n, n, Unbound);
    if forall r :: 0 <= r < n ==> !NumericLed(rows[r]) {
      BlockNoneRead(rows, n, n, Unbound);
      UnboundValues(d, c, n, nclusters);
    } else if block.Ok? {
      var r0 :| 0 <= r0 < n && NumericLed(rows[r0]);
      BlockSomeRead(rows, n, n, Unbound, r0);
      ReadValuesFacts(d, c, n, nclusters, block.value);
    }
  }

  /** The demand and capacity lines, reached with `is_int` unassigned, raise
      `UnboundLocalError` exactly when the first of them that is read has
      `n` tokens. */
  lemma UnboundValues(d: seq<string>, c: seq<string>, n: nat, nclusters: int)
    ensures ReadValues(d, c, n, nclusters, (Unbound, map[])) == Err(UnboundLocal) <==>
      (NumericLed(d) && |d| == n) || (!NumericLed(d) && NumericLed(c) && |c| == n)
  {
    ValueLineFacts(d, n, Unbound);
    if ValueLine(d, n, Unbound).Ok? {
      ValueLineFacts(c, n, Unbound);
    }
  }

  lemma ExampleHeader(sp: seq<string>)
    requires sp == ["2", "1"]
    ensures Header(sp) == Ok((2, 1))
  {
    NumericIsInteger("1");
    NumericIsInteger("2");
    assert DigitsValue("2") == 2;
  }

  lemma ExampleRows(lines: seq<string>, start: Flag)
    requires |lines| == 5 && Split(lines[1]) == ["#", "a"] && Split(lines[2]) == ["#", "b"]
    ensures DistanceBlock(DistanceRows(lines, 2), 2, 2, start) == Ok((start, map[]))
  {
    var rows := DistanceRows(lines, 2);
    assert rows[0] == ["#", "a"] && rows[1] == ["#", "b"];
    assert !IsDigit("#"[0]);
    BlockNoneRead(rows, 2, 2, start);
  }

  lemma ExampleUnbound()
    ensures ValueLine(["1", "1"], 2, Unbound) == Err(UnboundLocal)
  {
    NumericIsInteger("1");
  }

  lemma ExampleValues(t: string)
    requires t == "1" || t == "2"
    ensures ValueLine([t, t], 2, Bound(true)) == Ok((Bound(true), map[0 := t, 1 := t]))
  {
    NumericIsInteger(t);
    AddTwoValues(t, t);
  }

  /** The file `2 1`, `# a`, `# b`, `1 1`, `2 2`: the as-written reader
      raises, the corrected one reads two demands and two capacities. */
  lemma UnboundFlagFinding(lines: seq<string>)
    requires |lines| == 5 && Split(lines[0]) == ["2", "1"]
    requires Split(lines[1]) == ["#", "a"] && Split(lines[2]) == ["#", "b"]
    requires Split(lines[3]) == ["1", "1"] && Split(lines[4]) == ["2", "2"]
    ensures Parse(lines, Unbound) == Err(UnboundLocal)
    ensures Parse(lines, Bound(true)) == Ok(Instance(2, 1, map[], map[0 := "1", 1 := "1"], map[0 := "2", 1 := "2"]))
  {
    ExampleHeader(Split(LineAt(lines, 0)));
    ExampleRows(lines, Unbound);
    ExampleRows(lines, Bound(true));
    ExampleUnbound();
    ExampleValues("1");
    ExampleValues("2");
    assert Split(LineAt(lines, 3)) == ["1", "1"] && Split(LineAt(lines, 4)) == ["2", "2"];
  }

  /** Two tokens joined by a space split back into the two tokens. */
  lemma SplitPair(a: string, b: string)
    requires IsToken(a) && IsToken(b)
    ensures Split(Join([a, b])) == [a, b]
  {
    SplitJoin([a, b]);
  }

  lemma OneCharTokens()
    ensures IsToken("1") && IsToken("2") && IsToken("#") && IsToken("a") && IsToken("b")
  {
    assert !IsSpace('1') && !IsSpace('2') && !IsSpace('#') && !IsSpace('a') && !IsSpace('b');
  }

  /** The line `a b`. */
  function PairLine(a: string, b: string): (line: string)
    requires IsToken(a) && IsToken(b)
    ensures Split(line) == [a, b]
  {
    SplitPair(a, b);
    Join([a, b])
  }

  /** The lines `2 1`, `# a`, `# b`, `1 1`, `2 2` of a file that meets the
      preconditions of `UnboundFlagFinding`. */
  function ExampleFile(): (lines: seq<string>)
    ensures |lines| == 5 && Split(lines[0]) == ["2", "1"]
    ensures Split(lines[1]) == ["#", "a"] && Split(lines[2]) == ["#", "b"]
    ensures Split(lines[3]) == ["1", "1"] && Split(lines[4]) == ["2", "2"]
  {
    OneCharTokens();
    [PairLine("2", "1"), PairLine("#", "a"), PairLine("#", "b"), PairLine("1", "1"), PairLine("2", "2")]
  }

  /** Such a file exists. */
  lemma UnboundFlagExample()
    ensures Parse(ExampleFile(), Unbound) == Err(UnboundLocal) && Parse(ExampleFile(), Bound(true)).Ok?
  {
    UnboundFlagFinding(ExampleFile());
  }

  /** At most `3 + nlocations` lines are read: anything after them is ignored. */
  function ReadDepth(lines: seq<string>): nat {
    3 + Locations(lines)
  }

  lemma IgnoresLaterLines(lines: seq<string>, lines2: seq<string>, start: Flag)
    requires forall k :: 0 <= k < ReadDepth(lines) ==> LineAt(lines, k) == LineAt(lines2, k)
    ensures Parse(lines, start) == Parse(lines2, start)
  {
    assert LineAt(lines, 0) == LineAt(lines2, 0);
    var n := Locations(lines);
    forall r | 0 <= r < n
      ensures DistanceRows(lines, n)[r] == DistanceRows(lines2, n)[r]
    {
      assert LineAt(lines, r + 1) == LineAt(lines2, r + 1);
    }
    assert DistanceRows(lines, n) == DistanceRows(lines2, n);
    assert LineAt(lines, n + 1) == LineAt(lines2, n + 1);
    assert LineAt(lines, n + 2) == LineAt(lines2, n + 2);
  }

  // ---------------------------------------------------------------- writing

  /** A line of `n` tokens the reader reads whole: integers, led by a numeric one. */
  predicate TokenLine(tokens: seq<string>, n: nat) {
    && |tokens| == n
    && (forall i :: 0 <= i < n ==> IsToken(tokens[i]))
    && AllInteger(tokens)
    && (n > 0 ==> IsNumeric(tokens[0]))
  }

  /** The lines of an instance file with the given rows, demands and capacities. */
  function Format(nclusters: int, rows: seq<seq<string>>, demands: seq<string>, capacities: seq<string>): (lines: seq<string>)
    ensures |lines| == |rows| + 3
  {
    [NatToString(|rows|) + " " + IntToString(nclusters)]
    + seq(|rows|, i requires 0 <= i < |rows| => Join(rows[i]))
    + [Join(demands), Join(capacities)]
  }

  lemma FormatHeader(nclusters: int, rows: seq<seq<string>>, demands: seq<string>, capacities: seq<string>)
    ensures Header(Split(LineAt(Format(nclusters, rows, demands, capacities), 0))) == Ok((|rows|, nclusters))
  {
    var n := |rows|;
    var hdr := [NatToString(n), IntToString(nclusters)];
    assert LineAt(Format(nclusters, rows, demands, capacities), 0) == Join(hdr);
    SplitJoin(hdr);
    NumericIsInteger(NatToString(n));
    NatToStringRoundTrip(n);
    IntToStringRoundTrip(nclusters);
  }

  lemma FormatRowLine(nclusters: int, rows: seq<seq<string>>, demands: seq<string>, capacities: seq<string>, r: nat)
    requires r < |rows|
    ensures LineAt(Format(nclusters, rows, demands, capacities), r + 1) == Join(rows[r])
  {
    var lines := Format(nclusters, rows, demands, capacities);
    assert lines[r + 1] == Join(rows[r]);
  }

  lemma FormatRowSplits(nclusters: int, rows: seq<seq<string>>, demands: seq<string>, capacities: seq<string>, r: nat)
    requires r < |rows| && TokenLine(rows[r], |rows|)
    ensures Split(LineAt(Format(nclusters, rows, demands, capacities), r + 1)) == rows[r]
  {
    FormatRowLine(nclusters, rows, demands, capacities, r);
    SplitJoin(rows[r]);
  }

  /** Lines whose rows `1..n` split into `rows` give `rows` as the distance rows. */
  lemma RowsOfLines(lines: seq<string>, rows: seq<seq<string>>)
    requires forall r :: 0 <= r < |rows| ==> Split(LineAt(lines, r + 1)) == rows[r]
    ensures DistanceRows(lines, |rows|) == rows
  {
  }

  lemma FormatRows(nclusters: int, rows: seq<seq<string>>, demands: seq<string>, capacities: seq<string>)
    requires forall i :: 0 <= i < |rows| ==> TokenLine(rows[i], |rows|)
    ensures DistanceRows(Format(nclusters, rows, demands, capacities), |rows|) == rows
  {
    var lines := Format(nclusters, rows, demands, capacities);
    forall r | 0 <= r < |rows|
      ensures Split(LineAt(lines, r + 1)) == rows[r]
    {
      FormatRowSplits(nclusters, rows, demands, capacities, r);
    }
    RowsOfLines(lines, rows);
  }

  lemma FormatValues(nclusters: int, rows: seq<seq<string>>, demands: seq<string>, capacities: seq<string>)
    requires TokenLine(demands, |rows|) && TokenLine(capacities, |rows|)
    ensures Split(LineAt(Format(nclusters, rows, demands, capacities), |rows| + 1)) == demands
    ensures Split(LineAt(Format(nclusters, rows, demands, capacities), |rows| + 2)) == capacities
  {
    var n := |rows|;
    var lines := Format(nclusters, rows, demands, capacities);
    assert LineAt(lines, n + 1) == Join(demands);
    SplitJoin(demands);
    assert LineAt(lines, n + 2) == Join(capacities);
    SplitJoin(capacities);
  }

  /** `inst` holds `|rows|` locations, `nclusters` clusters, token `j` of
      row `i` as the distance `(i, j)` and token `j` of the demand and
      capacity lines as demand and capacity `j`, and nothing else. */
  ghost predicate HoldsTokens(inst: Instance, nclusters: int, rows: seq<seq<string>>, demands: seq<string>, capacities: seq<string>) {
    var n := |rows|;
    && inst.nlocations == n && inst.nclusters == nclusters
    && (forall key :: key in inst.distances <==> 0 <= key.0 < n && 0 <= key.1 < n)
    && (forall i, j :: 0 <= i < n && 0 <= j < n ==> (i, j) in inst.distances && j < |rows[i]| && inst.distances[(i, j)] == rows[i][j])
    && (forall j :: j in inst.demands <==> 0 <= j < n)
    && (forall j :: 0 <= j < n ==> j in inst.demands && j < |demands| && inst.demands[j] == demands[j])
    && (forall j :: j in inst.capacities <==> 0 <= j < n)
    && (forall j :: 0 <= j < n ==> j in inst.capacities && j < |capacities| && inst.capacities[j] == capacities[j])
  }

  lemma GridFrom(m: map<(int, int), string>, rows: seq<seq<string>>)
    requires forall i :: 0 <= i < |rows| ==> |rows[i]| == |rows| && NumericLed(rows[i])
    requires DistancesFrom(m, rows, |rows|, |rows|)
    ensures forall key :: key in m <==> 0 <= key.0 < |rows| && 0 <= key.1 < |rows|
    ensures forall i, j :: 0 <= i < |rows| && 0 <= j < |rows| ==> (i, j) in m && m[(i, j)] == rows[i][j]
  {
    forall i, j | 0 <= i < |rows| && 0 <= j < |rows|
      ensures (i, j) in m && m[(i, j)] == rows[i][j]
    {
      assert NumericLed(rows[(i, j).0]);
    }
  }

  lemma TokenLineRead(tokens: seq<string>, n: nat)
    requires TokenLine(tokens, n)
    ensures RowOk(tokens, n) && (n > 0 ==> NumericLed(tokens))
  {
  }

  lemma TokenLinesRead(rows: seq<seq<string>>)
    requires forall i :: 0 <= i < |rows| ==> TokenLine(rows[i], |rows|)
    ensures forall i :: 0 <= i < |rows| ==> NumericLed(rows[i]) && |rows[i]| == |rows| && RowOk(rows[i], |rows|)
  {
    forall i | 0 <= i < |rows|
      ensures NumericLed(rows[i]) && |rows[i]| == |rows| && RowOk(rows[i], |rows|)
    {
      TokenLineRead(rows[i], |rows|);
    }
  }

  /** Lines whose header gives `|rows|` and `nclusters` and whose other
      lines split into the given token lines are read whole. */
  lemma ReadsTokenLines(lines: seq<string>, nclusters: int, rows: seq<seq<string>>, demands: seq<string>, capacities: seq<string>)
    requires forall i :: 0 <= i < |rows| ==> TokenLine(rows[i], |rows|)
    requires TokenLine(demands, |rows|) && TokenLine(capacities, |rows|)
    requires Header(Split(LineAt(lines, 0))) == Ok((|rows|, nclusters))
    requires DistanceRows(lines, |rows|) == rows
    requires Split(LineAt(lines, |rows| + 1)) == demands && Split(LineAt(lines, |rows| + 2)) == capacities
    ensures Parse(lines, Bound(true)).Ok?
    ensures HoldsTokens(Parse(lines, Bound(true)).value, nclusters, rows, demands, capacities)
  {
    var n := |rows|;
    TokenBodyWellFormed(lines, rows, demands, capacities);
    assert Parse(lines, Bound(true)) == ReadBody(lines, n, nclusters, Bound(true));
    ReadBodyFacts(lines, n, nclusters, Bound(true));
    HoldsFrom(ReadBody(lines, n, nclusters, Bound(true)).value, nclusters, rows, demands, capacities);
  }

  lemma TokenBodyWellFormed(lines: seq<string>, rows: seq<seq<string>>, demands: seq<string>, capacities: seq<string>)
    requires forall i :: 0 <= i < |rows| ==> TokenLine(rows[i], |rows|)
    requires TokenLine(demands, |rows|) && TokenLine(capacities, |rows|)
    requires DistanceRows(lines, |rows|) == rows
    requires Split(LineAt(lines, |rows| + 1)) == demands && Split(LineAt(lines, |rows| + 2)) == capacities
    ensures BodyWellFormed(lines, |rows|)
  {
    TokenLinesRead(rows);
    TokenLineRead(demands, |rows|);
    TokenLineRead(capacities, |rows|);
  }

  lemma HoldsFrom(inst: Instance, nclusters: int, rows: seq<seq<string>>, demands: seq<string>, capacities: seq<string>)
    requires forall i :: 0 <= i < |rows| ==> TokenLine(rows[i], |rows|)
    requires TokenLine(demands, |rows|) && TokenLine(capacities, |rows|)
    requires inst.nlocations == |rows| && inst.nclusters == nclusters
    requires DistancesFrom(inst.distances, rows, |rows|, |rows|)
    requires ValuesFrom(inst.demands, demands, |rows|) && ValuesFrom(inst.capacities, capacities, |rows|)
    ensures HoldsTokens(inst, nclusters, rows, demands, capacities)
  {
    TokenLinesRead(rows);
    TokenLineRead(demands, |rows|);
    TokenLineRead(capacities, |rows|);
    GridFrom(inst.distances, rows);
  }

  /** Reading a formatted instance gives back its numbers and every token. */
  lemma FormatRoundTrip(nclusters: int, rows: seq<seq<string>>, demands: seq<string>, capacities: seq<string>)
    requires forall i :: 0 <= i < |rows| ==> TokenLine(rows[i], |rows|)
    requires TokenLine(demands, |rows|) && TokenLine(capacities, |rows|)
    ensures Parse(Format(nclusters, rows, demands, capacities), Bound(true)).Ok?
    ensures HoldsTokens(Parse(Format(nclusters, rows, demands, capacities), Bound(true)).value, nclusters, rows, demands, capacities)
  {
    FormatHeader(nclusters, rows, demands, capacities);
    FormatRows(nclusters, rows, demands, capacities);
    FormatValues(nclusters, rows, demands, capacities);
    ReadsTokenLines(Format(nclusters, rows, demands, capacities), nclusters, rows, demands, capacities);
  }

  // ---------------------------------------------------------------- reader

  /** A method's result with `is_int` as a plain truth value, seen as a flag. */
  function Lift<M>(r: Result<(bool, M), ReadError>): Result<(Flag, M), ReadError> {
    if r.Err? then Err(r.error) else Ok((Bound(r.value.0), r.value.1))
  }

  /** `read_instance` over the file's lines, with `is_int` assigned `True`
      before the loops: it succeeds or fails exactly as `Parse` does. This is
      the corrected reader; the code as written is `Parse(lines, Unbound)`. */
  method ReadInstance(lines: seq<string>) returns (r: Result<Instance, ReadError>)
    ensures r == Parse(lines, Bound(true))
  {
    var sp := Split(LineAt(lines, 0));
    var nlocations: nat := 0;
    var nclusters: int := 0;
    if |sp| > 0 && IsNumeric(sp[0]) {
      if |sp| != 2 {
        return Err(AssertionFailed);
      }
      if !(IsInteger(sp[0]) && IsInteger(sp[1])) {
        return Err(AssertionFailed);
      }
      nlocations := DigitsValue(sp[0]);
      nclusters := ParseInt(sp[1]);
    }
    assert Header(sp) == Ok((nlocations, nclusters));
    var block := ReadDistances(lines, nlocations);
    if block.Err? {
      return Err(block.error);
    }
    var isInt, distances := block.value.0, block.value.1;
    var demand := ReadValueLine(Split(LineAt(lines, nlocations + 1)), nlocations, isInt);
    if demand.Err? {
      return Err(demand.error);
    }
    var demands: map<int, string>;
    isInt, demands := demand.value.0, demand.value.1;
    var capacity := ReadValueLine(Split(LineAt(lines, nlocations + 2)), nlocations, isInt);
    if capacity.Err? {
      return Err(capacity.error);
    }
    r := Ok(Instance(nlocations, nclusters, distances, demands, capacity.value.1));
  }

  /** The distance loop, lines 52-63, with `is_int` starting `True`. */
  method ReadDistances(lines: seq<string>, n: nat) returns (r: Result<(bool, map<(int, int), string>), ReadError>)
    ensures Lift(r) == DistanceBlock(DistanceRows(lines, n), n, n, Bound(true))
  {
    ghost var rows := DistanceRows(lines, n);
    var isInt := true;
    var distances: map<(int, int), string> := map[];
    for i := 0 to n
      invariant DistanceBlock(rows, n, i, Bound(true)) == Ok((Bound(isInt), distances))
    {
      var sp := Split(LineAt(lines, i + 1));
      assert sp == rows[i];
      var pass := ReadDistanceRow(sp, n, i, isInt, distances);
      BlockNext(rows, n, i, Bound(true), (Bound(isInt), distances));
      if pass.Err? {
        BlockErrorSticks(rows, n, i + 1, n, Bound(true));
        return Err(pass.error);
      }
      isInt, distances := pass.value.0, pass.value.1;
    }
    r := Ok((isInt, distances));
  }

  /** One pass of the distance loop, on the split row `i`. */
  method ReadDistanceRow(sp: seq<string>, n: nat, i: int, isInt0: bool, m: map<(int, int), string>)
    returns (r: Result<(bool, map<(int, int), string>), ReadError>)
    ensures Lift(r) == DistanceRow(sp, n, i, (Bound(isInt0), m))
  {
    if |sp| > 0 && IsNumeric(sp[0]) {
      if |sp| != n {
        return Err(AssertionFailed);
      }
      var isInt := AllIntegerLoop(sp, true);
      if !isInt {
        return Err(AssertionFailed);
      }
      var distances := StoreRow(m, i, sp);
      return Ok((isInt, distances));
    }
    r := Ok((isInt0, m));
  }

  /** The demand line or the capacity line, with `is_int` assigned. */
  method ReadValueLine(sp: seq<string>, n: nat, isInt0: bool) returns (r: Result<(bool, map<int, string>), ReadError>)
    ensures Lift(r) == ValueLine(sp, n, Bound(isInt0))
  {
    var isInt := isInt0;
    var values: map<int, string> := map[];
    if |sp| > 0 && IsNumeric(sp[0]) {
      if |sp| != n {
        return Err(AssertionFailed);
      }
      isInt := AllIntegerLoop(sp, isInt);
      if !isInt {
        return Err(AssertionFailed);
      }
      values := StoreValues(sp);
    }
    r := Ok((isInt, values));
  }

  /** `for j in range(n): is_int = is_int and is_integer(sp[j])`. */
  method AllIntegerLoop(sp: seq<string>, isInt0: bool) returns (isInt: bool)
    ensures isInt == (isInt0 && AllInteger(sp))
  {
    isInt := isInt0;
    for j := 0 to |sp|
      invariant isInt == (isInt0 && AllInteger(sp[..j]))
    {
      assert sp[..j + 1] == sp[..j] + [sp[j]];
      isInt := isInt && IsInteger(sp[j]);
    }
    assert sp[..|sp|] == sp;
  }

  /** `for j in range(n): distances[i, j] = sp[j]`. */
  method StoreRow(m: map<(int, int), string>, i: int, sp: seq<string>) returns (r: map<(int, int), string>)
    ensures r == AddRow(m, i, sp)
  {
    r := m;
    for j := 0 to |sp|
      invariant r == AddRow(m, i, sp[..j])
    {
      assert sp[..j + 1][..j] == sp[..j];
      r := r[(i, j) := sp[j]];
    }
    assert sp[..|sp|] == sp;
  }

  /** `for j in range(n): values[j] = sp[j]`, into an empty dictionary. */
  method StoreValues(sp: seq<string>) returns (r: map<int, string>)
    ensures r == AddValues(map[], sp)
  {
    r := map[];
    for j := 0 to |sp|
      invariant r == AddValues(map[], sp[..j])
    {
      assert sp[..j + 1][..j] == sp[..j];
      r := r[j := sp[j]];
    }
    assert sp[..|sp|] == sp;
  }
}
