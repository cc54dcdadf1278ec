/** The server's request pipeline (Project4Server.java): one line from the
    client is parsed into three ints, the triple is validated, the list
    `numbers` is rebuilt from it and its sum is sent back. Replies and the
    kicking of the client are recorded as events instead of being written to a
    socket. */
module Project4Server {
  import opened Wrappers
  import opened JavaLang

  /** The line with which a client says goodbye. */
  const Sentinel: string := "Bye"

  /** The error replies the server can send, in the order its checks run. */
  datatype ErrorMessage = InvalidCount | NotANumber | NotPositive | NotIncreasing | BadStep
  {
    /** The exact text written to the client. */
    function Text(): string
    {
      match this
      case InvalidCount => "Invalid number of digits. Please provide exactly three numbers."
      case NotANumber => "One or more supplied values is not a number. Please supply three numbers, \nseparated by spaces."
      case NotPositive => "All numbers provided must be greater than zero."
      case NotIncreasing => "The first number must be less than the second."
      case BadStep => "The third number must be either 1 or 2."
    }
  }

  /** What sendToClient writes: an error message, or the statistics reply,
      represented by the integer sum of `numbers` and its size (the mean,
      standard deviation and their formatting are floating-point work). */
  datatype Reply = Error(message: ErrorMessage) | Report(sum: int, size: nat)

  /** One observable effect of the server on its client connection. */
  datatype Event = Replied(reply: Reply) | Kicked

  /** What parseInput makes of a line: the sentinel, a rejection, or three
      parsed ints (not yet validated). */
  datatype Request = Kick | Rejected(error: ErrorMessage) | Triple(n1: int32, n2: int32, n3: int32)

  // ---------------------------------------------------------------------------
  // Parsing

  /** parseInput as a function of the line. */
  function Parse(line: string): (r: Request)
    ensures r.Kick? <==> line == Sentinel
    ensures r.Rejected? ==> r.error == InvalidCount || r.error == NotANumber
    ensures r.Triple? ==> |Split(line)| == 3
    ensures r.Triple? ==> ParseInt(Split(line)[0]) == Some(r.n1) && ParseInt(Split(line)[1]) == Some(r.n2) && ParseInt(Split(line)[2]) == Some(r.n3)
    ensures line != Sentinel && |Split(line)| != 3 ==> r == Rejected(InvalidCount)
    ensures line != Sentinel && |Split(line)| == 3 ==>
      (r == Rejected(NotANumber) <==> exists i :: 0 <= i < 3 && ParseInt(Split(line)[i]).None?)
    ensures line != Sentinel && |Split(line)| == 3 && (forall i :: 0 <= i < 3 ==> ParseInt(Split(line)[i]).Some?) ==>
      r == Triple(ParseInt(Split(line)[0]).value, ParseInt(Split(line)[1]).value, ParseInt(Split(line)[2]).value)
  {
    if line == Sentinel then Kick
    else
      var tokens := Split(line);
      if |tokens| != 3 then Rejected(InvalidCount)
      else
        match (ParseInt(tokens[0]), ParseInt(tokens[1]), ParseInt(tokens[2]))
        case (Some(a), Some(b), Some(c)) => Triple(a, b, c)
        case _ => Rejected(NotANumber)
  }

  /** How many of number1, number2, number3 parseInput assigns: each
      Integer.parseInt either stores its value or throws, and a throw skips
      the assignments after it. */
  function AssignedFields(line: string): (n: nat)
    ensures n <= 3
    ensures n == 3 <==> Parse(line).Triple?
  {
    if line == Sentinel then 0
    else
      var tokens := Split(line);
      if |tokens| != 3 || ParseInt(tokens[0]).None? then 0
      else if ParseInt(tokens[1]).None? then 1
      else if ParseInt(tokens[2]).None? then 2
      else 3
  }

  /** The events parseInput itself produces: a kick, one error message, or
      none when it succeeds. */
  function ParseEvents(r: Request): seq<Event>
  {
    match r
    case Kick => [Kicked]
    case Rejected(m) => [Replied(Error(m))]
    case Triple(_, _, _) => []
  }

  /** A line of three decimal ints separated by runs of whitespace (each of
      any length and mix) is parsed into exactly those ints; trailing
      whitespace is ignored, but leading whitespace adds an empty first token
      and so fails the token count. */
  lemma ParseShow(a: int32, b: int32, c: int32, lead: string, g1: string, g2: string, tail: string)
    requires Gaps([g1, g2]) && Blank(lead) && Blank(tail)
    ensures Parse(lead + Show(a as int) + g1 + Show(b as int) + g2 + Show(c as int) + tail)
         == if lead == "" then Triple(a, b, c) else Rejected(InvalidCount)
  {
    var ts := [Show(a as int), Show(b as int), Show(c as int)];
    ShowToken(a as int);
    ShowToken(b as int);
    ShowToken(c as int);
    Interleave3(ts[0], ts[1], ts[2], g1, g2);
    var line := lead + Interleave(ts, [g1, g2]) + tail;
    assert line == lead + Show(a as int) + g1 + Show(b as int) + g2 + Show(c as int) + tail;
    SplitInterleave(ts, [g1, g2], lead, tail);
    assert line != Sentinel by {
      if lead != "" {
        assert line[0] == lead[0];
      } else {
        assert line[0] == ts[0][0];
      }
    }
    if lead == "" {
      ParseIntShow(a as int);
      ParseIntShow(b as int);
      ParseIntShow(c as int);
    }
  }

  /** Any number of tokens other than three, counting the empty first token
      that leading whitespace adds, is rejected with the token-count
      message. */
  lemma ParseWrongCount(ts: seq<string>, gaps: seq<string>, lead: string, tail: string)
    requires |ts| >= 1 && |gaps| == |ts| - 1 && Tokens(ts) && Gaps(gaps)
    requires Blank(lead) && Blank(tail)
    requires (if lead == "" then |ts| else |ts| + 1) != 3
    requires lead + Interleave(ts, gaps) + tail != Sentinel
    ensures Parse(lead + Interleave(ts, gaps) + tail) == Rejected(InvalidCount)
  {
    SplitInterleave(ts, gaps, lead, tail);
  }

  /** Two numbers after leading whitespace make three tokens, the first of
      them empty, so the line gets the not-a-number message rather than the
      token-count one. */
  lemma ParseLeadingPair(ts: seq<string>, gap: string, lead: string, tail: string)
    requires |ts| == 2 && Tokens(ts) && Gaps([gap])
    requires lead != "" && Blank(lead) && Blank(tail)
    ensures Parse(lead + ts[0] + gap + ts[1] + tail) == Rejected(NotANumber)
  {
    Interleave2(ts[0], ts[1], gap);
    assert ts == [ts[0], ts[1]];
    var line := lead + Interleave(ts, [gap]) + tail;
    assert line == lead + ts[0] + gap + ts[1] + tail;
    SplitInterleave(ts, [gap], lead, tail);
    assert line[0] == lead[0];
    assert ParseInt(Split(line)[0]) == None;
  }

  /** So are the empty line (one empty token) and a line of whitespace only
      (no token at all). */
  lemma ParseBlank(line: string)
    requires Blank(line)
    ensures Parse(line) == Rejected(InvalidCount)
  {
    SplitEdges(line);
  }

  // ---------------------------------------------------------------------------
  // Validation

  /** The triples processInput accepts. */
  predicate ValidTriple(n1: int, n2: int, n3: int)
  {
    0 < n1 < n2 && (n3 == 1 || n3 == 2)
  }

  /** The three checks of processInput, in their fixed order: the first one
      that fails decides the message, and a triple passes all of them exactly
      when it is valid. */
  function Validate(n1: int, n2: int, n3: int): (r: Option<ErrorMessage>)
    ensures r.None? <==> ValidTriple(n1, n2, n3)
    ensures r == Some(NotPositive) <==> n1 <= 0 || n2 <= 0 || n3 <= 0
    ensures r == Some(NotIncreasing) <==> 0 < n1 && 0 < n2 && 0 < n3 && n1 >= n2
    ensures r == Some(BadStep) <==> 0 < n1 < n2 && 0 < n3 && n3 != 1 && n3 != 2
  {
    if n1 <= 0 || n2 <= 0 || n3 <= 0 then Some(NotPositive)
    else if n1 >= n2 then Some(NotIncreasing)
    else if n3 != 1 && n3 != 2 then Some(BadStep)
    else None
  }

  // ---------------------------------------------------------------------------
  // The derived sequence

  /** The values the loop `for (i = start; i < n2 - n3; i += 2)
      numbers.add(i + n3)` appends, in order. */
  function Derived(start: int, n2: int, n3: int): seq<int>
    decreases n2 - n3 - start
  {
    if start < n2 - n3 then [start + n3] + Derived(start + 2, n2, n3) else []
  }

  /** The number of iterations of that loop: the ceiling of
      (n2 - n3 - start) / 2, or zero when the guard fails at once. */
  function Iterations(start: int, n2: int, n3: int): nat
  {
    if n2 - n3 <= start then 0 else (n2 - n3 - start + 1) / 2
  }

  /** Closed form of the derived sequence: start + n3, start + n3 + 2, ...,
      one element per iteration. */
  lemma {:induction false} DerivedClosedForm(start: int, n2: int, n3: int)
    ensures |Derived(start, n2, n3)| == Iterations(start, n2, n3)
    ensures forall k :: 0 <= k < |Derived(start, n2, n3)| ==> Derived(start, n2, n3)[k] == start + n3 + 2 * k
    decreases n2 - n3 - start
  {
    if start < n2 - n3 {
      DerivedClosedForm(start + 2, n2, n3);
    }
  }

  /** The shape of `numbers` after a request with a positive step: it starts
      at n1 + n3, rises by 2, stays strictly between n1 and n2, has
      Iterations(n1, n2, n3) elements, and is empty exactly when
      n2 - n3 <= n1. */
  lemma DerivedShape(n1: int, n2: int, n3: int)
    requires 0 < n3
    ensures var d := Derived(n1, n2, n3);
      && |d| == Iterations(n1, n2, n3)
      && (d == [] <==> n2 - n3 <= n1)
      && (d != [] ==> d[0] == n1 + n3)
      && (forall k :: 0 < k < |d| ==> d[k] == d[k - 1] + 2)
      && (forall k :: 0 <= k < |d| ==> n1 < d[k] < n2)
  {
    DerivedClosedForm(n1, n2, n3);
  }

  /** The values the loop variable i takes while the loop body runs. */
  predicate LoopIndex(i: int, n1: int, n2: int, n3: int)
  {
    n1 <= i < n2 - n3
  }

  /** For a valid triple of ints, none of `n2 - n3`, `i += 2` and `i + n3` in
      the loop overflows, and every value added to `numbers` is a positive
      int. */
  lemma NoOverflow(n1: int, n2: int, n3: int)
    requires InInt32(n2) && ValidTriple(n1, n2, n3)
    ensures InInt32(n2 - n3)
    ensures forall i :: LoopIndex(i, n1, n2, n3) ==> InInt32(i + 2) && InInt32(i + n3)
    ensures forall k :: 0 <= k < |Derived(n1, n2, n3)| ==> 0 < Derived(n1, n2, n3)[k] <= MaxInt
  {
    DerivedShape(n1, n2, n3);
  }

  // ---------------------------------------------------------------------------
  // The sum

  function Sum(s: seq<int>): int
  {
    if s == [] then 0 else Sum(s[..|s| - 1]) + s[|s| - 1]
  }

  lemma {:induction false} SumCons(x: int, s: seq<int>)
    ensures Sum([x] + s) == x + Sum(s)
    decreases |s|
  {
    if s != [] {
      assert ([x] + s)[..|s|] == [x] + s[..|s| - 1];
      SumCons(x, s[..|s| - 1]);
    }
  }

  /** A list of positive values sums to at least its length, so its sum is
      zero exactly when it is empty: the mean is computed (line 298 divides by
      the size) exactly when there is something to average. */
  lemma {:induction false} SumPositive(s: seq<int>)
    requires forall k :: 0 <= k < |s| ==> 0 < s[k]
    ensures Sum(s) >= |s|
    ensures Sum(s) == 0 <==> s == []
  {
    if s != [] {
      SumPositive(s[..|s| - 1]);
    }
  }

  /** The sum of the derived sequence in closed form: c * (start + n3) + c * (c - 1)
      for c iterations. */
  lemma {:induction false} SumDerived(start: int, n2: int, n3: int)
    ensures var c := Iterations(start, n2, n3);
      Sum(Derived(start, n2, n3)) == c * (start + n3) + c * (c - 1)
    decreases n2 - n3 - start
  {
    if start < n2 - n3 {
      SumDerived(start + 2, n2, n3);
      SumCons(start + n3, Derived(start + 2, n2, n3));
      var c' := Iterations(start + 2, n2, n3);
      assert Iterations(start, n2, n3) == c' + 1;
      SumStep(c', start + n3);
    }
  }

  /** The arithmetic step of SumDerived: one more leading term x. */
  lemma SumStep(c: int, x: int)
    ensures c * (x + 2) + c * (c - 1) + x == (c + 1) * x + (c + 1) * c
  {
    assert c * (x + 2) == c * x + 2 * c;
    assert (c + 1) * x == c * x + x;
    assert (c + 1) * c == c * c + c;
    assert c * (c - 1) == c * c - c;
  }

  // ---------------------------------------------------------------------------
  // One request, end to end

  /** The request's triple passes parsing and validation. */
  predicate Accepted(line: string)
  {
    Parse(line).Triple? && Validate(Parse(line).n1 as int, Parse(line).n2 as int, Parse(line).n3 as int).None?
  }

  /** The one event a line causes: parseInput's kick or error, else
      processInput's error, else the statistics reply for the derived
      sequence. */
  function Reaction(line: string): (e: Event)
    ensures e.Replied? && e.reply.Report? <==> Accepted(line)
  {
    match Parse(line)
    case Kick => Kicked
    case Rejected(m) => Replied(Error(m))
    case Triple(a, b, c) =>
      match Validate(a as int, b as int, c as int)
      case Some(m) => Replied(Error(m))
      case None =>
        var d := Derived(a as int, b as int, c as int);
        Replied(Report(Sum(d), |d|))
  }

  /** The usual form of a request: three decimal ints separated by single
      spaces. */
  lemma ParseSpaced(a: int32, b: int32, c: int32)
    ensures Parse(Show(a as int) + " " + Show(b as int) + " " + Show(c as int)) == Triple(a, b, c)
  {
    ParseShow(a, b, c, "", " ", " ", "");
    BareEnds(Show(a as int), Show(b as int), Show(c as int), " ");
  }

  lemma BareEnds(x: string, y: string, z: string, g: string)
    ensures "" + x + g + y + g + z + "" == x + g + y + g + z
  {
  }

  // Worked examples, one request line each.

  /** "-1 10 1": a negative value gets the greater-than-zero message, not a
      parse error. */
  lemma ExampleNotPositive(line: string)
    requires line == "-1 10 1"
    ensures Reaction(line) == Replied(Error(NotPositive))
  {
    assert line == Show(-1) + " " + Show(10) + " " + Show(1) by {
      assert Show(-1) == "-1";
      assert Show(10) == "10";
      assert Show(1) == "1";
    }
    ParseSpaced(-1, 10, 1);
  }

  /** "10 5 1": the first value must be below the second. */
  lemma ExampleNotIncreasing(line: string)
    requires line == "10 5 1"
    ensures Reaction(line) == Replied(Error(NotIncreasing))
  {
    assert line == Show(10) + " " + Show(5) + " " + Show(1) by {
      assert Show(10) == "10";
      assert Show(5) == "5";
      assert Show(1) == "1";
    }
    ParseSpaced(10, 5, 1);
  }

  /** "1 10 3": the step must be 1 or 2. */
  lemma ExampleBadStep(line: string)
    requires line == "1 10 3"
    ensures Reaction(line) == Replied(Error(BadStep))
  {
    assert line == Show(1) + " " + Show(10) + " " + Show(3) by {
      assert Show(1) == "1";
      assert Show(10) == "10";
      assert Show(3) == "3";
    }
    ParseSpaced(1, 10, 3);
  }

  /** "1 2": too few tokens. */
  lemma ExampleTooFew(line: string)
    requires line == "1 2"
    ensures Reaction(line) == Replied(Error(InvalidCount))
  {
    assert Tokens(["1", "2"]) && Gaps([" "]);
    assert line == "" + Interleave(["1", "2"], [" "]) + "" by {
      Interleave2("1", "2", " ");
    }
    ParseWrongCount(["1", "2"], [" "], "", "");
  }

  /** "1 2 3 4": too many tokens. */
  lemma ExampleTooMany(line: string)
    requires line == "1 2 3 4"
    ensures Reaction(line) == Replied(Error(InvalidCount))
  {
    assert Tokens(["1", "2", "3", "4"]) && Gaps([" ", " ", " "]);
    assert line == "" + Interleave(["1", "2", "3", "4"], [" ", " ", " "]) + "" by {
      assert ["1", "2", "3", "4"][1..] == ["2", "3", "4"];
      assert [" ", " ", " "][1..] == [" ", " "];
      Interleave3("2", "3", "4", " ", " ");
    }
    ParseWrongCount(["1", "2", "3", "4"], [" ", " ", " "], "", "");
  }

  /** "a 2 3": a token that is not a number. */
  lemma ExampleNotANumber(line: string)
    requires line == "a 2 3"
    ensures Reaction(line) == Replied(Error(NotANumber))
  {
    assert Tokens(["a", "2", "3"]) && Gaps([" ", " "]);
    assert line == "" + Interleave(["a", "2", "3"], [" ", " "]) + "" by {
      Interleave3("a", "2", "3", " ", " ");
    }
    SplitInterleave(["a", "2", "3"], [" ", " "], "", "");
    assert ParseInt("a") == None;
  }

  /** " 1 2": leading whitespace gives an empty first token, which is not a
      number. */
  lemma ExampleLeadingSpace(line: string)
    requires line == " 1 2"
    ensures Reaction(line) == Replied(Error(NotANumber))
  {
    assert Tokens(["1", "2"]) && Gaps([" "]);
    assert line == " " + "1" + " " + "2" + "";
    ParseLeadingPair(["1", "2"], " ", " ", "");
  }

  /** "1  2\t3 ": extra spaces, a tab and a trailing space change nothing. */
  lemma ExampleMixedGaps(line: string)
    requires line == "1  2\t3 "
    ensures Parse(line) == Triple(1, 2, 3)
  {
    assert Gaps(["  ", "\t"]);
    assert line == "" + Show(1) + "  " + Show(2) + "\t" + Show(3) + " " by {
      assert Show(1) == "1";
      assert Show(2) == "2";
      assert Show(3) == "3";
    }
    ParseShow(1, 2, 3, "", "  ", "\t", " ");
  }

  /** "2 8 2": the loop runs for i = 2 and i = 4, so `numbers` is [4, 6] and
      the sum is 10. */
  lemma ExampleReport(line: string)
    requires line == "2 8 2"
    ensures Derived(2, 8, 2) == [4, 6]
    ensures Reaction(line) == Replied(Report(10, 2))
  {
    assert line == Show(2) + " " + Show(8) + " " + Show(2) by {
      assert Show(2) == "2";
      assert Show(8) == "8";
    }
    ParseSpaced(2, 8, 2);
    SumDerived(2, 8, 2);
    DerivedClosedForm(2, 8, 2);
  }

  /** "5 6 1": n2 - n3 <= n1, so `numbers` is empty and the sum is 0. */
  lemma ExampleEmptyReport(line: string)
    requires line == "5 6 1"
    ensures Reaction(line) == Replied(Report(0, 0))
  {
    assert line == Show(5) + " " + Show(6) + " " + Show(1) by {
      assert Show(5) == "5";
      assert Show(6) == "6";
      assert Show(1) == "1";
    }
    ParseSpaced(5, 6, 1);
  }

  // ---------------------------------------------------------------------------
  // The server object

  class Server {
    var number1: int32
    var number2: int32
    var number3: int32
    /** The ArrayList `numbers`, rebuilt for every accepted request. */
    var numbers: seq<int>
    /** Everything sent to the client so far, and each kick, in order. */
    var events: seq<Event>

    /** `numbers` only ever holds values of a derived sequence: positive ints. */
    ghost predicate Valid()
      reads this
    {
      forall k :: 0 <= k < |numbers| ==> 0 < numbers[k] <= MaxInt
    }

    /** The fields as the Java constructor sets them (the listening socket it
        opens is not modelled). */
    constructor ()
      ensures Valid()
      ensures number1 == 0 && number2 == 0 && number3 == 0
      ensures numbers == [] && events == []
    {
      number1, number2, number3 := 0, 0, 0;
      numbers := [];
      events := [];
    }

    /** sendToClient: the message is written to the client (or, when the write
        fails, shown on the server's console instead). */
    method SendToClient(reply: Reply)
      modifies this`events
      ensures events == old(events) + [Replied(reply)]
    {
      events := events + [Replied(reply)];
    }

    /** kickClient: the client's streams are closed and the server goes back
        to accepting a connection. */
    method KickClient()
      modifies this`events
      ensures events == old(events) + [Kicked]
    {
      events := events + [Kicked];
    }

    /** parseInput: recognises the sentinel, splits the line on whitespace,
        insists on three tokens and parses each as an int; a failure sends
        exactly one message. Only when it returns true do the three fields hold
        the parsed triple; a parse failure leaves the fields before the failing
        token assigned. */
    method ParseInput(line: string) returns (success: bool)
      modifies this`number1, this`number2, this`number3, this`events
      ensures success <==> Parse(line).Triple?
      ensures success ==> number1 == Parse(line).n1 && number2 == Parse(line).n2 && number3 == Parse(line).n3
      ensures events == old(events) + ParseEvents(Parse(line))
      ensures number1 == if AssignedFields(line) >= 1 then ParseInt(Split(line)[0]).value else old(number1)
      ensures number2 == if AssignedFields(line) >= 2 then ParseInt(Split(line)[1]).value else old(number2)
      ensures number3 == if AssignedFields(line) >= 3 then ParseInt(Split(line)[2]).value else old(number3)
    {
      success := false;
      if line == Sentinel {
        KickClient();
      } else {
        var tokens := Split(line);
        if |tokens| != 3 {
          SendToClient(Error(InvalidCount));
        } else {
          var a := ParseInt(tokens[0]);
          if a.None? {
            SendToClient(Error(NotANumber));
            return;
          }
          number1 := a.value;
          var b := ParseInt(tokens[1]);
          if b.None? {
            SendToClient(Error(NotANumber));
            return;
          }
          number2 := b.value;
          var c := ParseInt(tokens[2]);
          if c.None? {
            SendToClient(Error(NotANumber));
            return;
          }
          number3 := c.value;
          success := true;
        }
      }
    }

    /** processInput: validates the fields in the fixed order, sending one
        message and leaving `numbers` alone on failure; otherwise clears
        `numbers`, fills it from the current triple alone and replies with its
        sum. The int arithmetic of the loop is checked not to overflow. */
    method ProcessInput()
      requires Valid()
      modifies this`numbers, this`events
      ensures Valid()
      ensures var verdict := Validate(number1 as int, number2 as int, number3 as int);
        && (verdict.Some? ==> numbers == old(numbers) && events == old(events) + [Replied(Error(verdict.value))])
        && (verdict.None? ==> numbers == Derived(number1 as int, number2 as int, number3 as int)
                              && events == old(events) + [Replied(Report(Sum(numbers), |numbers|))])
    {
      if number1 <= 0 || number2 <= 0 || number3 <= 0 {
        SendToClient(Error(NotPositive));
      } else if number1 >= number2 {
        SendToClient(Error(NotIncreasing));
      } else if number3 != 1 && number3 != 2 {
        SendToClient(Error(BadStep));
      } else {
        DeriveNumbers();
        CalculateOutput();
      }
    }

    /** The loop of processInput for a validated triple: `numbers` is cleared
        and then holds i + number3 for i = number1, number1 + 2, ... while
        i < number2 - number3, computed in int arithmetic that never
        overflows. */
    method DeriveNumbers()
      requires ValidTriple(number1 as int, number2 as int, number3 as int)
      modifies this`numbers
      ensures Valid()
      ensures numbers == Derived(number1 as int, number2 as int, number3 as int)
    {
      ghost var n1, n2, n3 := number1 as int, number2 as int, number3 as int;
      assert ValidTriple(n1, n2, n3);
      NoOverflow(n1, n2, n3);
      numbers := [];
      var bound := number2 - number3;
      var i := number1;
      while i < bound
        invariant number1 <= i
        invariant i < bound ==> LoopIndex(i as int, n1, n2, n3)
        invariant numbers + Derived(i as int, n2, n3) == Derived(n1, n2, n3)
        decreases bound as int - i as int
      {
        numbers := numbers + [(i + number3) as int];
        i := i + 2;
      }
      assert Derived(i as int, n2, n3) == [];
      assert numbers == Derived(n1, n2, n3);
    }

    /** calculateOutput, integer part: sums `numbers` and sends the reply. */
    method CalculateOutput()
      requires Valid()
      modifies this`events
      ensures events == old(events) + [Replied(Report(Sum(numbers), |numbers|))]
      ensures Sum(numbers) != 0 <==> |numbers| != 0
    {
      var sum := 0;
      for k := 0 to |numbers|
        invariant sum == Sum(numbers[..k])
      {
        assert numbers[..k + 1][..k] == numbers[..k];
        sum := sum + numbers[k];
      }
      assert numbers[..|numbers|] == numbers;
      // line 298 divides by numbers.size() only when the sum is non-zero,
      // which for these positive values is exactly when the list is non-empty
      SumPositive(numbers);
      assert sum != 0 <==> |numbers| != 0;
      SendToClient(Report(sum, |numbers|));
    }

    /** One pass of receiveInput's loop: parse the line and, if that
        succeeded, process it. Exactly one event results, and it depends on
        this line alone. */
    method HandleLine(line: string)
      requires Valid()
      modifies this
      ensures Valid()
      ensures events == old(events) + [Reaction(line)]
      ensures Accepted(line) ==> numbers == Derived(Parse(line).n1 as int, Parse(line).n2 as int, Parse(line).n3 as int)
      ensures !Accepted(line) ==> numbers == old(numbers)
      ensures number1 == if AssignedFields(line) >= 1 then ParseInt(Split(line)[0]).value else old(number1)
      ensures number2 == if AssignedFields(line) >= 2 then ParseInt(Split(line)[1]).value else old(number2)
      ensures number3 == if AssignedFields(line) >= 3 then ParseInt(Split(line)[2]).value else old(number3)
    {
      var success := ParseInput(line);
      if success {
        ProcessInput();
      }
    }

    /** receiveInput over the lines read from successive client
        connections: the k-th line yields the k-th event, whatever came
        before it. */
    method ReceiveInput(lines: seq<string>)
      requires Valid()
      modifies this
      ensures Valid()
      ensures |events| == |old(events)| + |lines|
      ensures events[..|old(events)|] == old(events)
      ensures forall k :: 0 <= k < |lines| ==> events[|old(events)| + k] == Reaction(lines[k])
    {
      ghost var before := events;
      for k := 0 to |lines|
        invariant Valid()
        invariant |events| == |before| + k
        invariant events[..|before|] == before
        invariant forall j :: 0 <= j < k ==> events[|before| + j] == Reaction(lines[j])
      {
        HandleLine(lines[k]);
      }
    }
  }
}
