/** The client: a bounded loop of connection attempts, then a loop that sends
    each keyboard line to the server and reads one reply after every line
    except the sentinel. The socket is replaced by a sequence of connection
    outcomes (true: `new Socket` and both streams succeed on that attempt) and
    the keyboard by the sequence of lines `nextLine` would return. */
module Project4Client {

  /** The line that ends the session. */
  const Sentinel := "Bye"

  /** `connectionAttempts < 4` bounds the connect loop. */
  const MaxAttempts := 4

  /** What the client does on its streams, in order. */
  datatype ClientEvent =
    | Send(line: string)   // outStream.writeUTF(line)
    | Receive              // inStream.readUTF(), then shown by getResponse
    | Close                // closeClient closes the socket and both streams

  /** How a run of the client ends. */
  datatype Ending =
    | Closed          // "Bye" was sent and closeClient ran
    | InputExhausted  // nextLine found no more input and threw
    | NullStream      // writeUTF was called on the null outStream and threw
    | Exited          // the "Unable to establish a connection" exit

  // ---------------------------------------------------------------------------
  // Connecting

  /** Whether the k-th connection attempt (from 0) succeeds; attempts beyond
      the given outcomes fail. */
  predicate Connects(outcomes: seq<bool>, k: nat)
  {
    k < |outcomes| && outcomes[k]
  }

  /** Some attempt the loop is allowed to make succeeds. */
  predicate Connectable(outcomes: seq<bool>)
  {
    exists k :: 0 <= k < MaxAttempts && Connects(outcomes, k)
  }

  /** The value connectionAttempts has after the loop, counting from the k-th
      attempt: every iteration counts, the successful one included. */
  function AttemptsFrom(outcomes: seq<bool>, k: nat): nat
    requires k < MaxAttempts
    decreases MaxAttempts - k
  {
    if Connects(outcomes, k) || k + 1 == MaxAttempts then k + 1
    else AttemptsFrom(outcomes, k + 1)
  }

  function Attempts(outcomes: seq<bool>): nat
  {
    AttemptsFrom(outcomes, 0)
  }

  lemma {:induction false} AttemptsFromSpec(outcomes: seq<bool>, k: nat)
    requires k < MaxAttempts
    ensures var n := AttemptsFrom(outcomes, k);
      && k < n <= MaxAttempts
      && (forall j :: k <= j < n - 1 ==> !Connects(outcomes, j))
      && (Connects(outcomes, n - 1) || n == MaxAttempts)
    decreases MaxAttempts - k
  {
    if !Connects(outcomes, k) && k + 1 < MaxAttempts {
      AttemptsFromSpec(outcomes, k + 1);
    }
  }

  /** The loop makes between one and four attempts and stops at the first
      success; the last attempt it makes succeeds exactly when some allowed
      attempt does, and when none does it has made all four. */
  lemma AttemptsSpec(outcomes: seq<bool>)
    ensures var n := Attempts(outcomes);
      && 1 <= n <= MaxAttempts
      && (forall j :: 0 <= j < n - 1 ==> !Connects(outcomes, j))
      && (Connects(outcomes, n - 1) <==> Connectable(outcomes))
      && (!Connectable(outcomes) ==> n == MaxAttempts)
  {
    AttemptsFromSpec(outcomes, 0);
  }

  // ---------------------------------------------------------------------------
  // The session

  /** The lines getInput sends: the input up to and including the first
      "Bye", or all of it when there is none. */
  function SentLines(lines: seq<string>): seq<string>
  {
    if lines == [] then []
    else if lines[0] == Sentinel then [lines[0]]
    else [lines[0]] + SentLines(lines[1..])
  }

  lemma {:induction false} SentLinesSpec(lines: seq<string>)
    ensures var s := SentLines(lines);
      && |s| <= |lines| && s == lines[..|s|]
      && (forall j :: 0 <= j < |s| - 1 ==> s[j] != Sentinel)
      && (Sentinel in lines <==> s != [] && s[|s| - 1] == Sentinel)
      && (Sentinel !in lines ==> s == lines)
  {
    if lines != [] && lines[0] != Sentinel {
      SentLinesSpec(lines[1..]);
      assert lines == [lines[0]] + lines[1..];
    }
  }

  /** SentLines read off a prefix: the input up to the first "Bye". */
  lemma {:induction false} SentLinesPrefix(lines: seq<string>, k: nat)
    requires 0 < k <= |lines| && lines[k - 1] == Sentinel
    requires forall j :: 0 <= j < k - 1 ==> lines[j] != Sentinel
    ensures SentLines(lines) == lines[..k]
  {
    if k > 1 {
      SentLinesPrefix(lines[1..], k - 1);
      assert lines[..k] == [lines[0]] + lines[1..][..k - 1];
    }
  }

  /** One pass of getInput's loop once the line is read: the line is written,
      and a reply is read unless it was "Bye". */
  function Exchange(line: string): seq<ClientEvent>
  {
    if line == Sentinel then [Send(line)] else [Send(line), Receive]
  }

  /** The stream events for the lines sent, in order. */
  function Transcript(sent: seq<string>): seq<ClientEvent>
  {
    if sent == [] then [] else Transcript(sent[..|sent| - 1]) + Exchange(sent[|sent| - 1])
  }

  /** The lines written, in the order written. */
  function Sends(es: seq<ClientEvent>): seq<string>
  {
    if es == [] then []
    else Sends(es[..|es| - 1]) + (if es[|es| - 1].Send? then [es[|es| - 1].line] else [])
  }

  lemma {:induction false} SendsAppend(a: seq<ClientEvent>, b: seq<ClientEvent>)
    ensures Sends(a + b) == Sends(a) + Sends(b)
    decreases |b|
  {
    if b == [] {
      assert a + b == a;
    } else {
      assert (a + b)[..|a + b| - 1] == a + b[..|b| - 1];
      SendsAppend(a, b[..|b| - 1]);
    }
  }

  lemma SendsExchange(x: string)
    ensures Sends(Exchange(x)) == [x]
  {
    var one := [Send(x)];
    assert one[..0] == [];
    assert Sends(one) == Sends([]) + [x];
    if x != Sentinel {
      var e := [Send(x), Receive];
      assert e[..1] == one;
      assert Sends(e) == Sends(one) + [];
    }
  }

  /** The transcript writes exactly the sent lines, in order, never closes,
      reads a reply right after each line other than "Bye" and after no
      "Bye", and reads nothing that is not such a reply. */
  lemma {:induction false} TranscriptSpec(sent: seq<string>)
    ensures var t := Transcript(sent);
      && Sends(t) == sent
      && Close !in t
      && (forall i :: 0 <= i < |t| && t[i].Send? ==>
            (i + 1 < |t| && t[i + 1] == Receive <==> t[i].line != Sentinel))
      && (forall i :: 0 <= i < |t| && t[i] == Receive ==>
            0 < i && t[i - 1].Send? && t[i - 1].line != Sentinel)
      && (t != [] ==> t[|t| - 1] == Receive || t[|t| - 1] == Send(Sentinel))
    decreases |sent|
  {
    if sent != [] {
      var init := sent[..|sent| - 1];
      var x := sent[|sent| - 1];
      TranscriptSpec(init);
      var p := Transcript(init);
      var t := Transcript(sent);
      assert t == p + Exchange(x);
      SendsAppend(p, Exchange(x));
      SendsExchange(x);
      assert sent == init + [x];
      TranscriptStep(p, x);
    }
  }

  /** The step of TranscriptSpec: one more exchange keeps the pairing of
      sends and replies. */
  lemma TranscriptStep(p: seq<ClientEvent>, x: string)
    requires Close !in p
    requires forall i :: 0 <= i < |p| && p[i].Send? ==>
               (i + 1 < |p| && p[i + 1] == Receive <==> p[i].line != Sentinel)
    requires forall i :: 0 <= i < |p| && p[i] == Receive ==>
               0 < i && p[i - 1].Send? && p[i - 1].line != Sentinel
    requires p != [] ==> p[|p| - 1] == Receive || p[|p| - 1] == Send(Sentinel)
    ensures var t := p + Exchange(x);
      && Close !in t
      && (forall i :: 0 <= i < |t| && t[i].Send? ==>
            (i + 1 < |t| && t[i + 1] == Receive <==> t[i].line != Sentinel))
      && (forall i :: 0 <= i < |t| && t[i] == Receive ==>
            0 < i && t[i - 1].Send? && t[i - 1].line != Sentinel)
  {
    var t := p + Exchange(x);
    assert forall i :: 0 <= i < |p| ==> t[i] == p[i];
    assert t[|p|] == Send(x);
    if x != Sentinel {
      assert t[|p| + 1] == Receive;
    }
  }

  // ---------------------------------------------------------------------------
  // The client object

  class Client {
    /** `connection != null`: a socket with both streams is open. */
    var connected: bool
    /** What has happened on the streams so far. */
    var events: seq<ClientEvent>

    /** The fields as initialised: `connection`, `outStream` and `inStream`
        are null. */
    constructor ()
      ensures !connected && events == []
    {
      connected := false;
      events := [];
    }

    /** establishConnection: up to four attempts, stopping at the first that
        connects; connectionAttempts counts every attempt, so it never exceeds
        four and the exit branch is never taken: getInput always runs, even
        when all four attempts failed. Both callers set `connection` to null
        first. */
    method EstablishConnection(outcomes: seq<bool>, lines: seq<string>) returns (attempts: nat, ending: Ending)
      requires !connected
      modifies this
      ensures attempts == Attempts(outcomes)
      ensures connected <==> Connectable(outcomes)
      ensures ending != Exited
      ensures connected ==> ending == (if Sentinel in lines then Closed else InputExhausted)
                            && events == old(events) + Transcript(SentLines(lines))
                                         + (if Sentinel in lines then [Close] else [])
      ensures !connected ==> ending == (if lines == [] then InputExhausted else NullStream)
                             && events == old(events)
    {
      attempts := 0;
      while !connected && attempts < MaxAttempts
        invariant attempts <= MaxAttempts
        invariant forall j :: 0 <= j < attempts - 1 ==> !Connects(outcomes, j)
        invariant !connected ==> forall j :: 0 <= j < attempts ==> !Connects(outcomes, j)
        invariant connected ==> 0 < attempts && Connects(outcomes, attempts - 1)
        invariant events == old(events)
        decreases MaxAttempts - attempts
      {
        if Connects(outcomes, attempts) {
          connected := true;
        }
        attempts := attempts + 1;
      }
      AttemptsCount(outcomes, attempts, connected);
      if attempts > MaxAttempts {
        assert false;
        ending := Exited;
      } else {
        ending := GetInput(lines);
      }
    }

    /** getInput: reads a line, writes it, and reads a reply unless it was
        "Bye", until "Bye" has been written; then closes. Without a
        connection the first write throws; with no line left the read
        throws. */
    method GetInput(lines: seq<string>) returns (ending: Ending)
      modifies this`events
      ensures connected ==> ending == (if Sentinel in lines then Closed else InputExhausted)
                            && events == old(events) + Transcript(SentLines(lines))
                                         + (if Sentinel in lines then [Close] else [])
      ensures !connected ==> ending == (if lines == [] then InputExhausted else NullStream)
                             && events == old(events)
    {
      SentLinesSpec(lines);
      var str := "";
      var k := 0;
      while str != Sentinel
        invariant k <= |lines|
        invariant k == 0 ==> str == "" && events == old(events)
        invariant k > 0 ==> connected && str == lines[k - 1]
        invariant forall j :: 0 <= j < k - 1 ==> lines[j] != Sentinel
        invariant str != Sentinel ==> forall j :: 0 <= j < k ==> lines[j] != Sentinel
        invariant events == old(events) + Transcript(lines[..k])
        decreases |lines| - k, if str == Sentinel then 0 else 1
      {
        if k == |lines| {
          // Scanner.nextLine throws NoSuchElementException
          assert lines[..k] == lines;
          ending := InputExhausted;
          return;
        }
        str := lines[k];
        if !connected {
          // outStream is still null: writeUTF throws NullPointerException
          ending := NullStream;
          return;
        }
        assert lines[..k + 1][..k] == lines[..k];
        k := k + 1;
        events := events + [Send(str)];
        if str != Sentinel {
          events := events + [Receive];
        }
      }
      SentLinesPrefix(lines, k);
      CloseClient();
      ending := Closed;
    }

    /** closeClient: the socket and both streams are closed. */
    method CloseClient()
      modifies this`events
      ensures events == old(events) + [Close]
    {
      events := events + [Close];
    }
  }

  /** The connect loop's count, read off its invariants. */
  lemma AttemptsCount(outcomes: seq<bool>, attempts: nat, connected: bool)
    requires attempts <= MaxAttempts
    requires connected || attempts == MaxAttempts
    requires forall j :: 0 <= j < attempts - 1 ==> !Connects(outcomes, j)
    requires !connected ==> forall j :: 0 <= j < attempts ==> !Connects(outcomes, j)
    requires connected ==> 0 < attempts && Connects(outcomes, attempts - 1)
    ensures attempts == Attempts(outcomes)
    ensures connected <==> Connectable(outcomes)
  {
    AttemptsSpec(outcomes);
  }

  /** The program: construct the client, which connects and then runs the
      session. */
  method Run(outcomes: seq<bool>, lines: seq<string>) returns (attempts: nat, ending: Ending, events: seq<ClientEvent>)
    ensures 1 <= attempts <= MaxAttempts && ending != Exited
    ensures Connectable(outcomes) ==> ending == (if Sentinel in lines then Closed else InputExhausted)
                                      && events == Transcript(SentLines(lines))
                                                   + (if Sentinel in lines then [Close] else [])
    ensures !Connectable(outcomes) ==> attempts == MaxAttempts && events == []
                                       && ending == (if lines == [] then InputExhausted else NullStream)
  {
    var client := new Client();
    attempts, ending := client.EstablishConnection(outcomes, lines);
    AttemptsSpec(outcomes);
    events := client.events;
  }
}
