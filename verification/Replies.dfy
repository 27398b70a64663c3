/** The one-line replies, and which commands the client expects a listing for. */
module Replies {
  import opened Common
  import opened Numerals
  import opened Protocol
  import opened ServerSession
  import opened Responses
  import opened Readings
  import ClientCommands
  import CommandLanguage
  import Listings
  import Snapshots

  /** A success names what was done, to what, and an amount, which node replies omit when it is zero;
      an error is any text on one line. */
  datatype Reply = Success(action: string, name: string, amount: Option<nat>) | Error(text: string)

  /** How the result of a node operation is shown. */
  function NodeReply(action: string, name: string, amount: nat): Reply {
    Success(action, name, if amount == 0 then None else Some(amount))
  }

  predicate Proper(reply: Reply) {
    match reply
    case Success(action, name, _) => OneLine(action) && ValidName(name)
    case Error(text) => OneLine(text)
  }

  function ReplyLine(reply: Reply): string {
    match reply
    case Success(action, name, None) => "OK " + action + " " + name
    case Success(action, name, Some(amount)) => "OK " + action + " " + name + " " + Numeral(amount)
    case Error(text) => "ERR " + text
  }

  // ---------------------------------------------------------------- receipt

  lemma LineIsReceived(multiline: bool, line: string, pieces: seq<string>)
    requires OneLine(line) && (!multiline || StartsWith(line, "ERR ")) && Delivers(pieces, line + "\n")
    ensures Collect(multiline, "", pieces) == Classified(line + "\n")
  {
    hide Collect, Framed, StartsWith, OneLine, Classified;
    OneLineIsFramed(multiline, line);
    assert "" + Concat(pieces) == line + "\n";
    FramedIsCollected(multiline, "", line + "\n", pieces);
  }

  lemma ReplyIsSafe(reply: Reply)
    requires Proper(reply)
    ensures OneLine(ReplyLine(reply))
  {
    hide ValidName, Numeral, OneLine;
    Listings.WordsAreOneLine();
    match reply {
      case Success(action, name, amount) =>
        Listings.NamesAreOneLine(name);
        Listings.OneLineJoins("OK ", action);
        Listings.OneLineJoins("OK " + action, " ");
        Listings.OneLineJoins("OK " + action + " ", name);
        if amount.Some? {
          Listings.Field("OK " + action + " " + name, amount.value);
        }
      case Error(text) =>
        Listings.OneLineJoins("ERR ", text);
    }
  }

  lemma ReplyIsClassified(reply: Reply)
    ensures StartsWith(ReplyLine(reply) + "\n", if reply.Success? then "OK " else "ERR ")
    ensures Classified(ReplyLine(reply) + "\n") ==
      ClientResponse(if reply.Success? then NoClientError else BrokerRejected, ReplyLine(reply) + "\n")
  {
    var text := ReplyLine(reply) + "\n";
    match reply {
      case Success(action, name, amount) =>
        assert text[..3] == "OK " && text[0] == 'O';
        assert |text| >= 4 ==> text[..4][0] == 'O';
      case Error(_) =>
        assert text[..4] == "ERR ";
    }
  }

  /** The caller of the client library learns whether the operation succeeded and gets the reply to
      its last character, in whatever pieces it comes; an error is recognized even where a listing
      is awaited. */
  lemma ReplyIsReceived(multiline: bool, reply: Reply, pieces: seq<string>)
    requires Proper(reply) && (multiline ==> reply.Error?)
    requires Delivers(pieces, ReplyLine(reply) + "\n")
    ensures Collect(multiline, "", pieces) ==
      ClientResponse(if reply.Success? then NoClientError else BrokerRejected, ReplyLine(reply) + "\n")
  {
    hide Collect, Proper, OneLine, Classified;
    ReplyIsSafe(reply);
    ReplyIsClassified(reply);
    if multiline {
      assert ReplyLine(reply)[..4] == "ERR ";
    }
    LineIsReceived(multiline, ReplyLine(reply), pieces);
  }

  /** Read back, a reply says in so many words what was done, to what, and how much; an error says the
      words of its text. */
  lemma ReplyReads(reply: Reply)
    requires Proper(reply) && (reply.Success? ==> Word(reply.action))
    ensures SaysAll(Tokens(ReplyLine(reply)),
      match reply
      case Success(action, name, amount) =>
        [Text("OK"), Text(action), Text(name)] + (if amount.Some? then [Num(amount.value)] else [])
      case Error(text) => [Text("ERR")] + Texts(text))
  {
    hide Tokens, SaysAll, Numeral, Word, ValidName, OneLine, Texts;
    match reply {
      case Success(action, name, amount) =>
        Listings.OkReads(action);
        ClientCommands.ValidNamesAreWords(name);
        WordFollows("OK " + action, [Text("OK"), Text(action)], name);
        var cells := [Text("OK"), Text(action), Text(name)];
        assert [Text("OK"), Text(action)] + [Text(name)] == cells;
        if amount.Some? {
          NumeralFollows("OK " + action + " " + name, cells, amount.value);
        } else {
          assert cells + [] == cells;
        }
      case Error(text) =>
        assert Word("ERR") by { ErrIsWord(); }
        WordStarts("ERR");
        TextsFollow("ERR", [Text("ERR")], text);
        assert "ERR" + " " == "ERR ";
    }
  }

  /** A node reply shows its amount exactly if there is one. */
  lemma NodeReplyReads(action: string, name: string, amount: nat)
    requires Word(action) && OneLine(action) && ValidName(name)
    ensures SaysAll(Tokens(ReplyLine(NodeReply(action, name, amount))),
      if amount == 0 then [Text("OK"), Text(action), Text(name)]
      else [Text("OK"), Text(action), Text(name), Num(amount)])
  {
    hide Tokens, SaysAll, Word, ValidName, OneLine, ReplyLine;
    ReplyReads(NodeReply(action, name, amount));
    var cells := [Text("OK"), Text(action), Text(name)];
    assert cells + [] == cells && cells + [Num(amount)] == [Text("OK"), Text(action), Text(name), Num(amount)];
  }

  lemma ErrIsWord()
    ensures Word("ERR")
  {
  }

  // ------------------------------------------------- which answer is expected

  lemma ListingVerbEnds(verb: string)
    requires ListingVerb(verb)
    ensures verb != "" && verb[|verb| - 1] != '\r'
  {
  }

  lemma ListingVerbs(tokens: seq<string>)
    requires ParseTokens(tokens).Accepted?
    ensures tokens != [] && (IsListing(ParseTokens(tokens).command.kind) <==> ListingVerb(tokens[0]))
    ensures ListingVerb(tokens[0]) ==> |tokens| == 1 && tokens[0][|tokens[0]| - 1] != '\r'
  {
    hide ParseSize, ParseOptions, ValidName;
  }

  /** The first word of a text that starts with one. */
  lemma FirstToken(text: string)
    requires text != "" && !Blank(text[0])
    ensures Tokens(text) != [] && Tokens(text)[0] == text[..Run(text, false)]
  {
    WordIsTaken(text);
  }

  /** Where the client waits for a listing, an accepted command gets one. */
  lemma ExpectedListingIsSent(command: string)
    requires command != "" && OneLine(command) && IsMultiline(command)
    ensures var r := ParseCommand(Stripped(command)); r.Accepted? ==> IsListing(r.command.kind)
  {
    hide Tokens, ParseTokens, ListingVerb;
    var verb, line := command[..Run(command, false)], Stripped(command);
    if ParseCommand(line).Accepted? {
      ListingVerbEnds(verb);
      assert command[|verb| - 1] == verb[|verb| - 1] != '\r';
      assert |line| >= |verb|;
      RunEnds(line, false, |verb|);
      FirstToken(line);
      assert line[..|verb|] == verb;
      ListingVerbs(Tokens(line));
    }
  }

  /** The client waits for a listing that the daemon will send exactly when its command starts with
      the verb itself: neither a leading blank nor a carriage return may touch it. */
  lemma SentListingIsExpectedIff(command: string)
    requires command != "" && OneLine(command)
    requires var r := ParseCommand(Stripped(command)); r.Accepted? && IsListing(r.command.kind)
    ensures IsMultiline(command) <==> !Blank(command[0]) && command[Run(command, false) - 1] != '\r'
  {
    hide Tokens, ParseTokens, ListingVerb, Run;
    var line := Stripped(command);
    ListingVerbs(Tokens(line));
    if IsMultiline(command) {
      ListingVerbEnds(command[..Run(command, false)]);
    }
    if !Blank(command[0]) {
      var n := Run(command, false);
      if command[n - 1] != '\r' {
        RunEnds(line, false, n);
        FirstToken(line);
        assert line[..n] == command[..n];
      }
    }
  }

  /** A listing the client does not wait for can end, for it, after the first line. */
  lemma UnexpectedListingIsCut(lines: seq<string>) returns (pieces: seq<string>)
    requires lines != [] && StartsWith(lines[0], "OK ")
    ensures Delivers(pieces, ListingText(lines))
    ensures Collect(false, "", pieces) == ClientResponse(NoClientError, lines[0] + "\n")
    ensures |lines[0] + "\n"| < |ListingText(lines)|
  {
    hide Collect, Classified, StartsWith;
    var first, rest := lines[0] + "\n", Unlines((lines + ["END"])[1..]);
    assert ListingText(lines) == first + rest;
    assert rest != "" by {
      assert (lines + ["END"])[1..] == lines[1..] + ["END"];
      ListingTextIs(lines[1..]);
    }
    TwoPieces(first, rest);
    LineAndNewline(lines[0]);
    CollectedEarly(false, first, rest);
    StartIsKept(lines[0], "OK ");
    NotAnError(first);
    pieces := [first, rest];
  }

  lemma NotAnError(text: string)
    requires StartsWith(text, "OK ")
    ensures Classified(text) == ClientResponse(NoClientError, text)
  {
    assert text[..3][0] == text[0];
    assert |text| >= 4 ==> text[..4][0] == text[0];
  }

  /** A status command with a carriage return: the daemon lists, and the client may see one line. */
  lemma ReturnHidesStatus(s: Snapshots.StatusSnapshot)
    ensures !IsMultiline("status\r")
    ensures ParseCommand(Stripped("status\r")) == Accepted(Command(Status, "", 0, Wait, DEFAULTS, "", ""))
    ensures var text := ListingText(Listings.StatusLines(s));
      exists pieces :: Delivers(pieces, text) && Collect(IsMultiline("status\r"), "", pieces) != ClientResponse(NoClientError, text)
  {
    hide Collect, ListingText, ParseCommand, Listings.StatusHeader, StartsWith;
    VerbWithReturn();
    Listings.StatusHeaderIsSafe(s);
    var pieces := UnexpectedListingIsCut(Listings.StatusLines(s));
  }

  lemma VerbWithReturn()
    ensures !IsMultiline("status\r")
    ensures ParseCommand(Stripped("status\r")) == Accepted(Command(Status, "", 0, Wait, DEFAULTS, "", ""))
  {
    hide ParseCommand, Run;
    var command := "status\r";
    RunEnds(command, false, 7);
    assert command[..7] == command;
    assert Stripped(command) == "status";
    var c := Command(Status, "", 0, Wait, DEFAULTS, "", "");
    CommandLanguage.LineSaysCommand(c);
    assert CommandLanguage.Line(c) == "status";
  }
}
