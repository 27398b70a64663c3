/** A device handle on its way from one process to another: hexadecimal text, the share reply, the
    client's reading of it, and the bytes again. */
module Sharing {
  import opened Common
  import opened Numerals
  import opened ServerSession
  import opened Responses
  import Listings
  import Replies

  type Byte = b: int | 0 <= b < 0x100

  // -------------------------------------------------------------- hexadecimal

  const HEX_DIGITS: string := "0123456789abcdef"

  function HexText(handle: seq<Byte>): (token: string)
    ensures |token| == 2 * |handle|
  {
    if handle == [] then ""
    else
      var last := handle[|handle| - 1];
      HexText(handle[..|handle| - 1]) + [HEX_DIGITS[last / 16], HEX_DIGITS[last % 16]]
  }

  method EncodeHandle(handle: seq<Byte>) returns (token: string)
    ensures token == HexText(handle)
  {
    token := "";
    var index := 0;
    while index < |handle|
      invariant index <= |handle| && token == HexText(handle[..index])
    {
      assert handle[..index + 1][..index] == handle[..index];
      token := token + [HEX_DIGITS[handle[index] / 16]];
      token := token + [HEX_DIGITS[handle[index] % 16]];
      index := index + 1;
    }
    assert handle[..index] == handle;
  }

  function HexValue(c: char): (v: int)
    ensures -1 <= v < 16
  {
    if '0' <= c <= '9' then c as int - '0' as int
    else if 'a' <= c <= 'f' then c as int - 'a' as int + 10
    else if 'A' <= c <= 'F' then c as int - 'A' as int + 10
    else -1
  }

  /** The same in character codes: digits, and the letters a to f of either case. */
  lemma HexValueIs(c: char)
    ensures var code := c as int;
      HexValue(c) == if 48 <= code <= 57 then code - 48
                     else if 65 <= code <= 70 then code - 55
                     else if 97 <= code <= 102 then code - 87
                     else -1
  {
  }

  predicate AllHex(s: string) { forall i :: 0 <= i < |s| ==> HexValue(s[i]) >= 0 }

  function Lower(c: char): char {
    if 'A' <= c <= 'F' then (c as int - 'A' as int + 'a' as int) as char else c
  }

  datatype Decoded = Handle(bytes: seq<Byte>) | WrongSize | BadDigit

  /** The handle a token stands for, as far as its first n pairs of digits. */
  function HandleOf(token: string, n: nat): (bytes: seq<Byte>)
    requires 2 * n <= |token| && AllHex(token[..2 * n])
    ensures |bytes| == n
    ensures forall i :: 0 <= i < n ==>
      token[2 * i] == token[..2 * n][2 * i] && token[2 * i + 1] == token[..2 * n][2 * i + 1] &&
      bytes[i] == 16 * HexValue(token[2 * i]) + HexValue(token[2 * i + 1])
  {
    seq(n, i requires 0 <= i < n =>
      assert token[2 * i] == token[..2 * n][2 * i] && token[2 * i + 1] == token[..2 * n][2 * i + 1];
      16 * HexValue(token[2 * i]) + HexValue(token[2 * i + 1]))
  }

  /** Opening a token, up to the call that maps the handle; `size` is the size of a handle. */
  method DecodeToken(token: string, size: nat) returns (r: Decoded)
    ensures r == Decode(token, size)
  {
    if |token| != size * 2 {
      return WrongSize;
    }
    assert token[..2 * size] == token;
    var bytes: seq<Byte> := [];
    var index := 0;
    while index < size
      invariant index <= size && |bytes| == index
      invariant forall i :: 0 <= i < 2 * index ==> HexValue(token[i]) >= 0
      invariant forall i :: 0 <= i < index ==> bytes[i] == 16 * HexValue(token[2 * i]) + HexValue(token[2 * i + 1])
    {
      var high := HexValue(token[index * 2]);
      var low := HexValue(token[index * 2 + 1]);
      if high < 0 || low < 0 {
        return BadDigit;
      }
      bytes := bytes + [high * 16 + low];
      index := index + 1;
    }
    assert AllHex(token);
    assert bytes == HandleOf(token, size);
    r := Handle(bytes);
  }

  function Decode(token: string, size: nat): Decoded {
    if |token| != 2 * size then WrongSize
    else if !AllHex(token) then BadDigit
    else
      assert token[..2 * size] == token;
      Handle(HandleOf(token, size))
  }

  /** Every token of the right length made of hexadecimal digits, and no other, stands for a handle,
      and the handle gives the token back in lower case; a wrong length is found before a bad digit. */
  lemma DecodedIsEncoded(token: string, size: nat, handle: seq<Byte>)
    ensures Decode(token, size) == Handle(handle)
      <==> |handle| == size && |token| == 2 * size && AllHex(token) &&
           forall i :: 0 <= i < |token| ==> HexText(handle)[i] == Lower(token[i])
    ensures Decode(token, size) == WrongSize <==> |token| != 2 * size
    ensures Decode(token, size) == BadDigit <==> |token| == 2 * size && !AllHex(token)
  {
    hide HexText, HexValue;
    forall i | 0 <= i < |handle|
      ensures HexText(handle)[2 * i] == HEX_DIGITS[handle[i] / 16]
      ensures HexText(handle)[2 * i + 1] == HEX_DIGITS[handle[i] % 16]
    {
      HexAt(handle, i);
    }
    if |handle| == size && |token| == 2 * size && AllHex(token) {
      assert token[..2 * size] == token;
      forall i | 0 <= i < size
        ensures handle[i] == HandleOf(token, size)[i] <==>
          HexText(handle)[2 * i] == Lower(token[2 * i]) && HexText(handle)[2 * i + 1] == Lower(token[2 * i + 1])
      {
        assert HexText(handle)[2 * i] == HEX_DIGITS[handle[i] / 16];
        assert HexText(handle)[2 * i + 1] == HEX_DIGITS[handle[i] % 16];
        PairIff(token[2 * i], token[2 * i + 1], handle[i]);
      }
      PairsCover(size, HexText(handle), token);
      assert handle == HandleOf(token, size) <==> forall i :: 0 <= i < size ==> handle[i] == HandleOf(token, size)[i];
    }
  }

  lemma PairsCover(size: nat, text: string, token: string)
    requires |text| == |token| == 2 * size
    ensures (forall i :: 0 <= i < |token| ==> text[i] == Lower(token[i])) <==>
      forall i :: 0 <= i < size ==> text[2 * i] == Lower(token[2 * i]) && text[2 * i + 1] == Lower(token[2 * i + 1])
  {
    if forall i :: 0 <= i < size ==> text[2 * i] == Lower(token[2 * i]) && text[2 * i + 1] == Lower(token[2 * i + 1]) {
      forall j | 0 <= j < |token| ensures text[j] == Lower(token[j]) {
        assert j == 2 * (j / 2) || j == 2 * (j / 2) + 1;
      }
    }
  }

  lemma PairIff(high: char, low: char, b: Byte)
    requires HexValue(high) >= 0 && HexValue(low) >= 0
    ensures b == 16 * HexValue(high) + HexValue(low) <==>
      HEX_DIGITS[b / 16] == Lower(high) && HEX_DIGITS[b % 16] == Lower(low)
  {
    DigitIff(high, b / 16);
    DigitIff(low, b % 16);
  }

  lemma DigitIff(c: char, v: nat)
    requires HexValue(c) >= 0 && v < 16
    ensures HEX_DIGITS[v] == Lower(c) <==> v == HexValue(c)
    ensures HexValue(HEX_DIGITS[v]) == v && Lower(HEX_DIGITS[v]) == HEX_DIGITS[v]
  {
  }

  lemma {:induction false} HexAt(handle: seq<Byte>, i: nat)
    requires i < |handle|
    ensures HexText(handle)[2 * i] == HEX_DIGITS[handle[i] / 16]
    ensures HexText(handle)[2 * i + 1] == HEX_DIGITS[handle[i] % 16]
  {
    if i < |handle| - 1 {
      HexAt(handle[..|handle| - 1], i);
    }
  }

  lemma HexTextIsHex(handle: seq<Byte>)
    ensures forall i :: 0 <= i < |HexText(handle)| ==>
      HexValue(HexText(handle)[i]) >= 0 && Lower(HexText(handle)[i]) == HexText(handle)[i]
  {
    hide HexText;
    forall i | 0 <= i < |HexText(handle)|
      ensures HexValue(HexText(handle)[i]) >= 0 && Lower(HexText(handle)[i]) == HexText(handle)[i]
    {
      HexAt(handle, i / 2);
      DigitIff('0', handle[i / 2] / 16);
      DigitIff('0', handle[i / 2] % 16);
      assert i == 2 * (i / 2) || i == 2 * (i / 2) + 1;
    }
  }

  lemma HandleSurvives(handle: seq<Byte>)
    ensures Decode(HexText(handle), |handle|) == Handle(handle)
  {
    hide Decode, HexText;
    HexTextIsHex(handle);
    DecodedIsEncoded(HexText(handle), |handle|, handle);
  }

  // --------------------------------------------------------------- the reply

  function ShareLine(name: string, bytes: Bytes, token: string): string {
    "OK shared " + name + " " + Numeral(bytes) + " " + token
  }

  /** What the extraction operator of a stream skips. */
  predicate Space(c: char) { c == ' ' || '\t' <= c <= '\r' }

  /** The length of the longest prefix of white space, or of anything else. */
  function Stretch(s: string, space: bool): (n: nat)
    ensures n <= |s| && forall i :: 0 <= i < n ==> Space(s[i]) == space
    ensures n < |s| ==> Space(s[n]) != space
  {
    if s == "" || Space(s[0]) != space then 0 else 1 + Stretch(s[1..], space)
  }

  function Unspaced(s: string): string { s[Stretch(s, true)..] }

  /** The next word of a stream, empty at its end, and what follows it. */
  function NextWord(s: string): (string, string) {
    var t := Unspaced(s);
    (t[..Stretch(t, false)], t[Stretch(t, false)..])
  }

  datatype ShareDescriptor = ShareDescriptor(bytes: Bytes, token: string)

  function ParseShare(response: string): Option<ShareDescriptor> {
    var (ok, s0) := NextWord(response);
    var (action, s1) := NextWord(s0);
    var (name, s2) := NextWord(s1);
    var (size, s3) := NextWord(s2);
    var (token, _) := NextWord(s3);
    if token == "" || ok != "OK" || action != "shared" then None
    else
      var bytes := ParseUnsigned(size);
      if bytes == None || !AllHex(token) then None
      else Some(ShareDescriptor(bytes.value, token))
  }

  lemma SpaceIsSkipped(s: string)
    requires s != "" && Space(s[0])
    ensures Unspaced(s) == Unspaced(s[1..])
  {
    assert s[Stretch(s, true)..] == s[1..][Stretch(s[1..], true)..];
  }

  lemma StretchStops(s: string, space: bool)
    ensures Stretch(s, space) == if s == "" || Space(s[0]) != space then 0 else 1 + Stretch(s[1..], space)
  {
  }

  lemma NothingToSkip(s: string)
    requires s == "" || !Space(s[0])
    ensures Unspaced(s) == s
  {
  }

  method ExtractWord(s: string, from: nat) returns (word: string, next: nat)
    requires from <= |s|
    ensures from <= next <= |s| && (word, s[next..]) == NextWord(s[from..])
  {
    hide Stretch, Unspaced;
    var start := from;
    while start < |s| && Space(s[start])
      invariant from <= start <= |s| && Unspaced(s[start..]) == Unspaced(s[from..])
    {
      SpaceIsSkipped(s[start..]);
      assert s[start..][1..] == s[start + 1..];
      start := start + 1;
    }
    next := start;
    ghost var t := s[start..];
    NothingToSkip(t);
    while next < |s| && !Space(s[next])
      invariant start <= next <= |s|
      invariant Stretch(t, false) == next - start + Stretch(s[next..], false)
    {
      StretchStops(s[next..], false);
      assert s[next..][1..] == s[next + 1..];
      next := next + 1;
    }
    StretchStops(s[next..], false);
    word := s[start..next];
    assert word == t[..next - start] && s[next..] == t[next - start..];
  }

  method ParseShareResponse(response: string) returns (r: Option<ShareDescriptor>)
    ensures r == ParseShare(response)
  {
    hide NextWord;
    var ok, action, name, size, token, next;
    assert response[0..] == response;
    ok, next := ExtractWord(response, 0);
    action, next := ExtractWord(response, next);
    name, next := ExtractWord(response, next);
    size, next := ExtractWord(response, next);
    token, next := ExtractWord(response, next);
    if token == "" || ok != "OK" || action != "shared" {
      return None;
    }
    var bytes := ParseUnsigned(size);
    if bytes == None {
      return None;
    }
    for i := 0 to |token|
      invariant forall j :: 0 <= j < i ==> HexValue(token[j]) >= 0
    {
      if HexValue(token[i]) < 0 {
        return None;
      }
    }
    r := Some(ShareDescriptor(bytes.value, token));
  }

  // -------------------------------------------------- what a share reply is

  /** Blank, tab, newline, vertical tab, form feed, carriage return. */
  predicate White(s: string) { forall i :: 0 <= i < |s| ==> s[i] as int == 32 || 9 <= s[i] as int <= 13 }

  /** The text has no white space in it. */
  predicate Solid(s: string) { forall i :: 0 <= i < |s| ==> !(s[i] as int == 32 || 9 <= s[i] as int <= 13) }

  datatype ShareParts = ShareParts(
    g0: string, g1: string, g2: string, name: string, g3: string, size: string, g4: string, rest: string)

  /** The first five words of the text are OK, shared, a name, the size in digits and the token. */
  predicate IsShare(response: string, p: ShareParts, d: ShareDescriptor) {
    && response == p.g0 + "OK" + (p.g1 + "shared" + (p.g2 + p.name + (p.g3 + p.size + (p.g4 + d.token + p.rest))))
    && White(p.g0) && White(p.g1) && White(p.g2) && White(p.g3) && White(p.g4)
    && p.g1 != "" && p.g2 != "" && p.g3 != "" && p.g4 != ""
    && p.name != "" && Solid(p.name) && Solid(p.size) && d.token != "" && Solid(d.token)
    && (p.rest == "" || White([p.rest[0]]))
    && p.size != "" && AllDigits(p.size) && Value(p.size) == d.bytes
    && AllHex(d.token)
  }

  lemma StretchEnds(s: string, space: bool, n: nat)
    requires n <= |s| && forall i :: 0 <= i < n ==> Space(s[i]) == space
    requires n < |s| ==> Space(s[n]) != space
    ensures Stretch(s, space) == n
  {
  }

  /** White space before a word, and white space or nothing after it. */
  lemma NextWordIs(gap: string, word: string, tail: string)
    requires White(gap) && Solid(word) && word != "" && (tail == "" || White([tail[0]]))
    ensures NextWord(gap + word + tail) == (word, tail)
  {
    hide Stretch;
    var s, t := gap + word + tail, word + tail;
    assert s[|gap|] == word[0];
    if tail != "" {
      assert Space([tail[0]][0]);
    }
    StretchEnds(s, true, |gap|);
    assert Unspaced(s) == t;
    assert tail != "" ==> t[|word|] == tail[0];
    StretchEnds(t, false, |word|);
    assert t[..|word|] == word && t[|word|..] == tail;
  }

  /** Every text is white space, its first word, and the rest. */
  lemma WordComesApart(s: string) returns (gap: string)
    ensures var (word, tail) := NextWord(s);
      s == gap + word + tail && White(gap) && Solid(word) && (tail == "" || White([tail[0]])) && (word == "" ==> tail == "")
  {
    hide Stretch;
    gap := s[..Stretch(s, true)];
  }

  lemma GapStarts(gap: string, more: string)
    requires White(gap) && gap != ""
    ensures gap + more != "" && White([(gap + more)[0]])
  {
    assert (gap + more)[0] == gap[0];
  }

  /** A text is read as a share reply exactly when its first five words are such a reply; what follows
      them does not matter. */
  lemma ParseShareIff(response: string, d: ShareDescriptor)
    ensures ParseShare(response) == Some(d) <==> exists p :: IsShare(response, p, d)
  {
    hide ParseShare, IsShare;
    if ParseShare(response) == Some(d) {
      var p := ShareComesApart(response, d);
    }
    forall p | IsShare(response, p, d) ensures ParseShare(response) == Some(d) {
      ShareIsRead(response, p, d);
    }
  }

  lemma ShareIsRead(response: string, p: ShareParts, d: ShareDescriptor)
    requires IsShare(response, p, d)
    ensures ParseShare(response) == Some(d)
  {
    hide NextWord, Stretch, AllHex, ParseUnsigned, Solid, White, Value, AllDigits;
    var t3 := p.g4 + d.token + p.rest;
    var t2 := p.g3 + p.size + t3;
    var t1 := p.g2 + p.name + t2;
    var t0 := p.g1 + "shared" + t1;
    assert Solid("OK") && Solid("shared") by { VerbsAreSolid(); }
    GapStarts(p.g1, "shared" + t1);
    GapStarts(p.g2, p.name + t2);
    GapStarts(p.g3, p.size + t3);
    GapStarts(p.g4, d.token + p.rest);
    Regroup(p.g1, "shared", t1);
    Regroup(p.g2, p.name, t2);
    Regroup(p.g3, p.size, t3);
    Regroup(p.g4, d.token, p.rest);
    NextWordIs(p.g0, "OK", t0);
    NextWordIs(p.g1, "shared", t1);
    NextWordIs(p.g2, p.name, t2);
    NextWordIs(p.g3, p.size, t3);
    NextWordIs(p.g4, d.token, p.rest);
    UnsignedIsDigits(p.size, d.bytes);
  }

  lemma WordIsNotWhite(word: string, tail: string)
    requires Solid(word) && word != ""
    ensures !White([(word + tail)[0]])
  {
    var first := [(word + tail)[0]];
    assert first[0] == word[0];
  }

  lemma WordNeedsGap(gap: string, word: string, tail: string)
    requires gap + word + tail == "" || White([(gap + word + tail)[0]])
    requires Solid(word) && word != ""
    ensures gap != ""
  {
    WordIsNotWhite(word, tail);
    assert "" + word + tail == word + tail;
  }

  lemma ShareComesApart(response: string, d: ShareDescriptor) returns (p: ShareParts)
    requires ParseShare(response) == Some(d)
    ensures IsShare(response, p, d)
  {
    hide NextWord, Stretch, AllHex, ParseUnsigned, Solid, White, Value, AllDigits;
    var (ok, s0) := NextWord(response);
    var (action, s1) := NextWord(s0);
    var (name, s2) := NextWord(s1);
    var (size, s3) := NextWord(s2);
    var (token, s4) := NextWord(s3);
    var g0 := WordComesApart(response);
    var g1 := WordComesApart(s0);
    var g2 := WordComesApart(s1);
    var g3 := WordComesApart(s2);
    var g4 := WordComesApart(s3);
    UnsignedIsDigits(size, d.bytes);
    NothingFollows();
    assert name != "";
    WordNeedsGap(g1, action, s1);
    WordNeedsGap(g2, name, s2);
    WordNeedsGap(g3, size, s3);
    WordNeedsGap(g4, token, s4);
    p := ShareParts(g0, g1, g2, name, g3, size, g4, s4);
  }

  lemma NothingFollows()
    ensures NextWord("") == ("", "")
  {
  }

  // ------------------------------------------------------------ the pipeline

  lemma NoNextWord(s: string)
    requires forall i :: 0 <= i < |s| ==> Space(s[i])
    ensures NextWord(s) == ("", "")
  {
    hide Stretch;
    StretchEnds(s, true, |s|);
    StretchEnds("", false, 0);
  }

  lemma FiveWords(name: string, size: string, token: string)
    requires Solid(name) && name != "" && Solid(size) && size != "" && Solid(token)
    ensures var text := "OK shared " + name + " " + size + " " + token + "\n";
      ParseShare(text) ==
        if token == "" || ParseUnsigned(size) == None || !AllHex(token) then None
        else Some(ShareDescriptor(ParseUnsigned(size).value, token))
  {
    hide NextWord, Stretch, AllHex, ParseUnsigned, Solid;
    var t3 := " " + token + "\n";
    var t2 := " " + size + t3;
    var t1 := " " + name + t2;
    var t0 := " " + "shared" + t1;
    var text := "" + "OK" + t0;
    assert Solid("OK") && Solid("shared") by { VerbsAreSolid(); }
    assert text == "OK shared " + name + " " + size + " " + token + "\n";
    NextWordIs("", "OK", t0);
    NextWordIs(" ", "shared", t1);
    NextWordIs(" ", name, t2);
    NextWordIs(" ", size, t3);
    if token == "" {
      assert t3 == " \n";
      NoNextWord(t3);
    } else {
      NextWordIs(" ", token, "\n");
    }
  }

  lemma VerbsAreSolid()
    ensures Solid("OK") && Solid("shared")
  {
  }

  lemma WordsAreSolid(name: string, bytes: Bytes, handle: seq<Byte>)
    requires ValidName(name)
    ensures Solid(name) && name != "" && Solid(Numeral(bytes)) && Solid(HexText(handle))
  {
    hide HexText;
    forall i | 0 <= i < |name| ensures !Space(name[i]) {
      assert NameChar(name[i]);
    }
    forall i | 0 <= i < |Numeral(bytes)| ensures !Space(Numeral(bytes)[i]) {
      assert IsDigit(Numeral(bytes)[i]);
    }
    HexTextIsHex(handle);
    forall i | 0 <= i < |HexText(handle)| ensures !Space(HexText(handle)[i]) {
      assert HexValue(HexText(handle)[i]) >= 0;
    }
  }

  /** What the client reads from a share reply, and opens, is the handle and the size that were
      shared, exactly when the handle is not empty. */
  lemma ShareSurvivesIff(name: string, bytes: Bytes, handle: seq<Byte>)
    requires ValidName(name)
    ensures var r := ParseShare(ShareLine(name, bytes, HexText(handle)) + "\n");
      && (r.Some? <==> handle != [])
      && (r.Some? ==> r.value.bytes == bytes && Decode(r.value.token, |handle|) == Handle(handle))
  {
    hide ParseShare, HexText, Decode, Numeral, ParseUnsigned, Solid, ValidName;
    WordsAreSolid(name, bytes, handle);
    FiveWords(name, Numeral(bytes), HexText(handle));
    UnsignedReadsBack(bytes);
    HexTextIsHex(handle);
    HandleSurvives(handle);
  }

  lemma ShareLineIsOneLine(name: string, bytes: Bytes, handle: seq<Byte>)
    requires ValidName(name)
    ensures OneLine(ShareLine(name, bytes, HexText(handle)))
    ensures Classified(ShareLine(name, bytes, HexText(handle)) + "\n").error == NoClientError
  {
    hide HexText, Numeral, OneLine, ValidName;
    var token, l0 := HexText(handle), "OK shared " + name;
    Listings.NamesAreOneLine(name);
    assert OneLine("OK shared ") && OneLine(token) && OneLine(" ") by { PartsAreOneLine(handle); }
    Listings.OneLineJoins("OK shared ", name);
    Listings.Field(l0, bytes);
    Listings.OneLineJoins(l0 + " " + Numeral(bytes), " ");
    Listings.OneLineJoins(l0 + " " + Numeral(bytes) + " ", token);
    OkIsOk(ShareLine(name, bytes, token) + "\n");
  }

  lemma OkIsOk(text: string)
    requires |text| > 3 && text[0] == 'O' && text[1] == 'K' && text[2] == ' '
    ensures Classified(text).error == NoClientError
  {
    assert text[..3] == "OK ";
    assert text[..4][0] == 'O';
  }

  lemma PartsAreOneLine(handle: seq<Byte>)
    ensures OneLine("OK shared ") && OneLine(" ") && OneLine(HexText(handle))
  {
    hide HexText;
    HexTextIsHex(handle);
    forall i | 0 <= i < |HexText(handle)| ensures HexText(handle)[i] != '\n' {
      assert HexValue(HexText(handle)[i]) >= 0;
    }
  }

  /** From one process to the other: encoded, formatted, sent in any pieces, collected, parsed and
      decoded, a handle is the same handle. */
  lemma SharedHandleArrives(name: string, bytes: Bytes, handle: seq<Byte>, pieces: seq<string>)
    requires ValidName(name) && handle != []
    requires Delivers(pieces, ShareLine(name, bytes, HexText(handle)) + "\n")
    ensures var r := Collect(false, "", pieces);
      && r.error == NoClientError
      && ParseShare(r.payload) == Some(ShareDescriptor(bytes, HexText(handle)))
      && Decode(HexText(handle), |handle|) == Handle(handle)
  {
    hide ParseShare, HexText, Decode, Collect, OneLine, Delivers, ShareLine, Numeral, Solid, AllHex, ValidName;
    var line := ShareLine(name, bytes, HexText(handle));
    ShareLineIsOneLine(name, bytes, handle);
    Replies.LineIsReceived(false, line, pieces);
    Payload(line + "\n");
    ShareIsParsed(name, bytes, handle);
    HandleSurvives(handle);
  }

  lemma ShareIsParsed(name: string, bytes: Bytes, handle: seq<Byte>)
    requires ValidName(name) && handle != []
    ensures ParseShare(ShareLine(name, bytes, HexText(handle)) + "\n") == Some(ShareDescriptor(bytes, HexText(handle)))
  {
    hide ParseShare, HexText, Numeral, ParseUnsigned, Solid, ValidName;
    WordsAreSolid(name, bytes, handle);
    FiveWords(name, Numeral(bytes), HexText(handle));
    UnsignedReadsBack(bytes);
    HexTextIsHex(handle);
  }
}
