/** The texts the daemon answers with, and the client loop that reads until an answer is complete. */
module Responses {
  import opened Protocol
  import opened ServerSession

  // ------------------------------------------------------------ the client

  datatype ClientError = NoClientError | BadRequest | ReadFailed | BrokerRejected

  datatype ClientResponse = ClientResponse(error: ClientError, payload: string)

  predicate StartsWith(s: string, prefix: string) {
    |prefix| <= |s| && s[..|prefix|] == prefix
  }

  predicate ListingVerb(verb: string) { verb in {"status", "models", "residency", "metrics", "nodes"} }

  /** The verb reaches to the first blank, and a leading blank makes it empty. */
  predicate IsMultiline(command: string) {
    ListingVerb(command[..Run(command, false)])
  }

  predicate Complete(multiline: bool, response: string) {
    || (StartsWith(response, "ERR ") && !OneLine(response))
    || (multiline && EndsWith(response, "END\n"))
    || (!multiline && !OneLine(response))
  }

  function Classified(response: string): ClientResponse {
    if StartsWith(response, "ERR ") then ClientResponse(BrokerRejected, response)
    else if !StartsWith(response, "OK ") then ClientResponse(ReadFailed, response)
    else ClientResponse(NoClientError, response)
  }

  /** An empty read, or no further one, stands for the end of the stream or a failed read. */
  function Collect(multiline: bool, response: string, pieces: seq<string>): ClientResponse
    decreases |pieces|
  {
    if pieces == [] || pieces[0] == "" then ClientResponse(ReadFailed, response)
    else if Complete(multiline, response + pieces[0]) then Classified(response + pieces[0])
    else Collect(multiline, response + pieces[0], pieces[1..])
  }

  /** The exchange once the connection is made and the command has been written. */
  method Request(command: string, pieces: seq<string>) returns (r: ClientResponse)
    ensures r == if command == "" || !OneLine(command) then ClientResponse(BadRequest, "")
                 else Collect(IsMultiline(command), "", pieces)
  {
    hide Complete, Classified, IsMultiline;
    if command == "" || !OneLine(command) {
      return ClientResponse(BadRequest, "");
    }
    var response := "";
    var multiline := IsMultiline(command);
    var next := 0;
    assert pieces[0..] == pieces;
    while true
      invariant next <= |pieces|
      invariant Collect(multiline, response, pieces[next..]) == Collect(multiline, "", pieces)
      decreases |pieces| - next
    {
      if next == |pieces| || pieces[next] == "" {
        return ClientResponse(ReadFailed, response);
      }
      assert pieces[next..][1..] == pieces[next + 1..];
      response := response + pieces[next];
      if Complete(multiline, response) {
        break;
      }
      next := next + 1;
    }
    return Classified(response);
  }

  // ------------------------------------------------------ where it stops

  predicate Delivers(pieces: seq<string>, text: string) {
    Concat(pieces) == text && forall i :: 0 <= i < |pieces| ==> pieces[i] != ""
  }

  /** The text is complete, and nothing shorter is. */
  ghost predicate Framed(multiline: bool, text: string) {
    && text != "" && Complete(multiline, text)
    && forall n :: 0 < n < |text| ==> !Complete(multiline, text[..n])
  }

  lemma {:induction false} FramedIsCollected(multiline: bool, seen: string, text: string, pieces: seq<string>)
    requires Framed(multiline, text) && seen + Concat(pieces) == text && |seen| < |text|
    requires forall i :: 0 <= i < |pieces| ==> pieces[i] != ""
    ensures Collect(multiline, seen, pieces) == Classified(text)
    decreases |pieces|
  {
    hide Complete, Classified;
    var now := seen + pieces[0];
    assert text == now + Concat(pieces[1..]);
    assert now == text[..|now|];
    if |now| < |text| {
      FramedIsCollected(multiline, now, text, pieces[1..]);
    } else {
      assert now == text;
    }
  }

  lemma TwoPieces(a: string, b: string)
    requires a != "" && b != ""
    ensures Delivers([a, b], a + b)
  {
    assert [a, b][1..] == [b] && [b][1..] == [];
    assert Concat([b]) == b;
  }

  lemma CollectedEarly(multiline: bool, a: string, b: string)
    requires a != "" && Complete(multiline, a)
    ensures Collect(multiline, "", [a, b]) == Classified(a)
  {
    assert "" + a == a;
  }

  lemma Payload(response: string)
    ensures Classified(response).payload == response
  {
  }

  /** The client takes a non-empty text as it is, in whatever pieces it comes, exactly when the text
      is complete and none of its beginnings is. */
  lemma StopsAtEndIff(multiline: bool, text: string)
    requires text != "" && Complete(multiline, text)
    ensures Framed(multiline, text)
      <==> forall pieces :: Delivers(pieces, text) ==> Collect(multiline, "", pieces) == Classified(text)
  {
    hide Complete, Classified, Collect;
    if Framed(multiline, text) {
      forall pieces | Delivers(pieces, text) ensures Collect(multiline, "", pieces) == Classified(text) {
        assert "" + Concat(pieces) == text;
        FramedIsCollected(multiline, "", text, pieces);
      }
    } else {
      var n :| 0 < n < |text| && Complete(multiline, text[..n]);
      var a, b := text[..n], text[n..];
      assert a + b == text;
      TwoPieces(a, b);
      CollectedEarly(multiline, a, b);
      Payload(a);
      Payload(text);
    }
  }

  lemma {:induction false} CutOffIsReadFailed(multiline: bool, seen: string, text: string, pieces: seq<string>,
                                              more: seq<string>)
    requires Framed(multiline, text) && seen + Concat(pieces) < text
    requires forall i :: 0 <= i < |pieces| ==> pieces[i] != ""
    ensures Collect(multiline, seen, pieces) == ClientResponse(ReadFailed, seen + Concat(pieces))
    ensures Collect(multiline, seen, pieces + [""] + more) == ClientResponse(ReadFailed, seen + Concat(pieces))
    decreases |pieces|
  {
    hide Complete, Classified;
    var all := pieces + [""] + more;
    if pieces == [] {
      assert seen + "" == seen;
      assert all[0] == "";
    } else {
      var now := seen + pieces[0];
      assert seen + Concat(pieces) == now + Concat(pieces[1..]);
      assert now == text[..|now|];
      CutOffIsReadFailed(multiline, now, text, pieces[1..], more);
      assert all[1..] == pieces[1..] + [""] + more;
    }
  }

  /** A framed answer that is cut off anywhere, in whatever pieces it comes, is a failed read that
      keeps what came; nothing after an empty read is looked at. */
  lemma CutOffAnswerFails(multiline: bool, text: string, pieces: seq<string>, more: seq<string>)
    requires Framed(multiline, text) && Concat(pieces) < text
    requires forall i :: 0 <= i < |pieces| ==> pieces[i] != ""
    ensures Collect(multiline, "", pieces) == ClientResponse(ReadFailed, Concat(pieces))
    ensures Collect(multiline, "", pieces + [""] + more) == ClientResponse(ReadFailed, Concat(pieces))
  {
    hide Collect, Framed;
    assert "" + Concat(pieces) == Concat(pieces);
    CutOffIsReadFailed(multiline, "", text, pieces, more);
  }

  /** A line that begins neither with OK nor with ERR and a blank is no answer. */
  lemma StrangeLineFails(line: string, pieces: seq<string>)
    requires OneLine(line) && Delivers(pieces, line + "\n")
    requires !("OK " <= line + "\n") && !("ERR " <= line + "\n")
    ensures Collect(false, "", pieces) == ClientResponse(ReadFailed, line + "\n")
  {
    hide Collect, Framed, OneLine;
    OneLineIsFramed(false, line);
    assert "" + Concat(pieces) == line + "\n";
    FramedIsCollected(false, "", line + "\n", pieces);
  }

  /** A one-line answer is framed, for a listing command only if it is an error. */
  lemma OneLineIsFramed(multiline: bool, line: string)
    requires OneLine(line) && (!multiline || StartsWith(line, "ERR "))
    ensures Framed(multiline, line + "\n")
  {
    hide OneLine, StartsWith, EndsWith;
    var text := line + "\n";
    LineAndNewline(line);
    assert !multiline || StartsWith(text, "ERR ") by {
      if multiline {
        StartIsKept(line, "ERR ");
      }
    }
    forall n | 0 < n < |text| ensures !Complete(multiline, text[..n]) {
      assert text[..n] == line[..n];
      BeginningIsOpen(line[..n], line);
    }
  }

  lemma LineAndNewline(line: string)
    ensures !OneLine(line + "\n")
  {
    assert (line + "\n")[|line|] == '\n';
  }

  lemma StartIsKept(line: string, prefix: string)
    requires StartsWith(line, prefix)
    ensures StartsWith(line + "\n", prefix)
  {
    assert (line + "\n")[..|prefix|] == line[..|prefix|];
  }

  lemma BeginningIsOpen(part: string, line: string)
    requires OneLine(line) && part <= line
    ensures OneLine(part) && !EndsWith(part, "END\n")
  {
    EndHasNewline(part);
  }

  lemma EndHasNewline(part: string)
    ensures EndsWith(part, "END\n") ==> !OneLine(part)
  {
    if EndsWith(part, "END\n") {
      assert part[|part| - 1] == part[|part| - 4..][3];
    }
  }

  // ------------------------------------------------------------- listings

  /** A prefix of lines that ends like a last line ends with a line that does. */
  lemma {:induction false} EndsInside(lines: seq<string>, n: nat) returns (i: nat)
    requires forall j :: 0 <= j < |lines| ==> OneLine(lines[j])
    requires 4 <= n <= |Unlines(lines)| && Unlines(lines)[n - 4..n] == "END\n"
    ensures i < |lines| && EndsWith(lines[i], "END") && n == |Unlines(lines[..i + 1])|
    decreases |lines|
  {
    var line, tail, m := lines[0], lines[1..], |lines[0]| + 1;
    if n == m {
      EndsWithFirst(line, Unlines(tail));
      i := 0;
      OneUnlined(line);
      assert lines[..1] == [line];
    } else {
      EndsAfterFirst(line, Unlines(tail), n);
      var k := EndsInside(tail, n - m);
      i := k + 1;
      assert lines[..i + 1] == [line] + tail[..k + 1];
      UnlinesSplit([line], tail[..k + 1]);
      OneUnlined(line);
    }
  }

  lemma EndsWithFirst(line: string, rest: string)
    requires |line| >= 3 && (line + "\n" + rest)[|line| - 3..|line| + 1] == "END\n"
    ensures EndsWith(line, "END")
  {
    assert line[|line| - 3..] == (line + "\n" + rest)[|line| - 3..|line| + 1][..3];
  }

  lemma EndsAfterFirst(line: string, rest: string, n: nat)
    requires OneLine(line) && n != |line| + 1
    requires 4 <= n <= |line + "\n" + rest| && (line + "\n" + rest)[n - 4..n] == "END\n"
    ensures n >= |line| + 5 && rest[n - |line| - 5..n - |line| - 1] == "END\n"
  {
    var text, m := line + "\n" + rest, |line| + 1;
    assert text[n - 4..n][3] == text[n - 1] == '\n' && text[|line|] == '\n';
    assert forall k :: n - 4 <= k < n - 1 ==> text[k] == text[n - 4..n][k - (n - 4)] != '\n';
    assert forall j :: 0 <= j < |line| ==> text[j] == line[j];
    assert n >= m + 4;
    assert rest[n - m - 4..n - m] == text[n - 4..n];
  }

  lemma EndOfPrefix(lines: seq<string>, i: nat)
    requires i < |lines|
    ensures Unlines(lines[..i + 1]) == Unlines(lines[..i]) + lines[i] + "\n"
    ensures Unlines(lines) == Unlines(lines[..i + 1]) + Unlines(lines[i + 1..])
  {
    hide Unlines;
    PrefixGrows(lines, i);
    LineIsAdded(lines[..i], lines[i]);
    PrefixAndRest(lines, i + 1);
    UnlinesSplit(lines[..i + 1], lines[i + 1..]);
  }

  lemma PrefixGrows(lines: seq<string>, i: nat)
    requires i < |lines|
    ensures lines[..i + 1] == lines[..i] + [lines[i]]
  {
  }

  lemma PrefixAndRest(lines: seq<string>, i: nat)
    requires i <= |lines|
    ensures lines == lines[..i] + lines[i..]
  {
  }

  lemma LineIsAdded(lines: seq<string>, line: string)
    ensures Unlines(lines + [line]) == Unlines(lines) + line + "\n"
  {
    hide Unlines;
    UnlinesSplit(lines, [line]);
    OneUnlined(line);
    Regroup(Unlines(lines), line, "\n");
  }

  function ListingText(lines: seq<string>): string { Unlines(lines + ["END"]) }

  lemma ListingTextIs(lines: seq<string>)
    ensures ListingText(lines) == Unlines(lines) + "END\n"
  {
    UnlinesSplit(lines, ["END"]);
    OneUnlined("END");
    assert "END" + "\n" == "END\n";
  }

  lemma EndsEarly(lines: seq<string>, i: nat)
    requires i < |lines| && EndsWith(lines[i], "END")
    ensures var n := |Unlines(lines[..i + 1])|;
      0 < n < |ListingText(lines)| && EndsWith(ListingText(lines)[..n], "END\n")
  {
    hide Unlines, ListingText;
    ListingTextIs(lines);
    EndOfPrefix(lines, i);
    var head, line := Unlines(lines[..i]), lines[i];
    var n := |head + line + "\n"|;
    assert ListingText(lines)[..n] == head + line + "\n";
    assert line == line[..|line| - 3] + "END";
    assert head + line + "\n" == head + line[..|line| - 3] + "END\n";
  }

  lemma OnlyLastEnds(lines: seq<string>, n: nat)
    requires forall i :: 0 <= i < |lines| ==> OneLine(lines[i]) && !EndsWith(lines[i], "END")
    requires 0 < n < |ListingText(lines)|
    ensures !EndsWith(ListingText(lines)[..n], "END\n")
  {
    var text, all := ListingText(lines), lines + ["END"];
    if EndsWith(text[..n], "END\n") {
      assert text[n - 4..n] == text[..n][n - 4..];
      forall j | 0 <= j < |all| ensures OneLine(all[j]) {
      }
      var i := EndsInside(all, n);
      WholeText(all, i);
      assert false;
    }
  }

  lemma WholeText(lines: seq<string>, i: nat)
    requires i < |lines|
    ensures i + 1 == |lines| ==> Unlines(lines[..i + 1]) == Unlines(lines)
  {
    if i + 1 == |lines| {
      assert lines[..i + 1] == lines;
    }
  }

  /** A listing is framed exactly when none of its lines ends in the letters of the last line. */
  lemma ListingIsFramedIff(lines: seq<string>)
    requires lines != [] && StartsWith(lines[0], "OK ")
    requires forall i :: 0 <= i < |lines| ==> OneLine(lines[i])
    ensures Complete(true, ListingText(lines))
    ensures Framed(true, ListingText(lines)) <==> forall i :: 0 <= i < |lines| ==> !EndsWith(lines[i], "END")
  {
    hide Unlines, ListingText, OneLine;
    var text := ListingText(lines);
    ListingTextIs(lines);
    ListingStarts(lines);
    forall n | 0 < n <= |text| ensures Complete(true, text[..n]) <==> EndsWith(text[..n], "END\n") {
      assert text[..n][0] == 'O';
    }
    assert text[..|text|] == text;
    forall i | 0 <= i < |lines| && EndsWith(lines[i], "END") ensures !Framed(true, text) {
      EndsEarly(lines, i);
    }
    if forall i :: 0 <= i < |lines| ==> !EndsWith(lines[i], "END") {
      forall n | 0 < n < |text| ensures !Complete(true, text[..n]) {
        OnlyLastEnds(lines, n);
      }
    }
  }

  lemma ListingStarts(lines: seq<string>)
    requires lines != [] && StartsWith(lines[0], "OK ")
    ensures ListingText(lines) != "" && ListingText(lines)[0] == 'O'
  {
    assert (lines + ["END"])[0] == lines[0];
    assert lines[0][..3][0] == 'O';
  }
}
