// Error messages and their normalisation before they are stored
// (worker/job-processing.utils.ts).
//
// A message is a sequence of UTF-16 code units, the unit in which JavaScript
// measures and slices strings.
module ErrorText {

  newtype CodeUnit = c: int | 0 <= c < 0x1_0000

  type Text = seq<CodeUnit>

  const SPACE: CodeUnit := 0x20
  const MAX_ERROR_MESSAGE_LENGTH := 500

  // The class `\s` of JavaScript regular expressions, which is also what `trim` strips.
  predicate IsSpace(c: CodeUnit) {
    || 0x09 <= c <= 0x0D || c == 0x20 || c == 0xA0 || c == 0x1680
    || 0x2000 <= c <= 0x200A || c == 0x2028 || c == 0x2029
    || c == 0x202F || c == 0x205F || c == 0x3000 || c == 0xFEFF
  }

  // The code units that ECMAScript counts as white space or line terminators.
  lemma WhitespaceUnits(c: CodeUnit)
    ensures IsSpace(c) <==> c in {
      0x0009, 0x000A, 0x000B, 0x000C, 0x000D, 0x0020, 0x00A0, 0x1680, 0x2000, 0x2001, 0x2002, 0x2003, 0x2004,
      0x2005, 0x2006, 0x2007, 0x2008, 0x2009, 0x200A, 0x2028, 0x2029, 0x202F, 0x205F, 0x3000, 0xFEFF}
  {
  }

  // A value thrown by the simulated work.
  datatype Thrown = ErrorObject(message: Text) | Nullish | Other(asString: Text)

  function Ascii(s: string): Text
    requires forall i :: 0 <= i < |s| ==> s[i] as int < 128
  {
    seq(|s|, i requires 0 <= i < |s| => s[i] as int as CodeUnit)
  }

  const UNKNOWN_ERROR: Text := Ascii("Unknown error")

  function TrimStart(s: Text): Text {
    if s == [] then []
    else if IsSpace(s[0]) then TrimStart(s[1..])
    else s
  }

  function TrimEnd(s: Text): Text {
    if s == [] then []
    else if IsSpace(s[|s| - 1]) then TrimEnd(s[..|s| - 1])
    else s
  }

  function Trim(s: Text): Text {
    TrimEnd(TrimStart(s))
  }

  // `message.replace(/\s+/g, ' ')`: every maximal run of whitespace becomes one space.
  function CollapseWhitespace(s: Text): Text
    decreases |s|
  {
    if s == [] then []
    else if IsSpace(s[0]) then
      TrimStartShrinks(s);
      [SPACE] + CollapseWhitespace(TrimStart(s))
    else [s[0]] + CollapseWhitespace(s[1..])
  }

  function Truncate(s: Text, limit: nat): Text {
    if |s| <= limit then s else s[..limit]
  }

  function SanitizeMessage(message: Text): Text {
    Truncate(Trim(CollapseWhitespace(message)), MAX_ERROR_MESSAGE_LENGTH)
  }

  function SanitizeProcessingError(error: Thrown): Text {
    var message := match error
      case ErrorObject(text) => text
      case Nullish => UNKNOWN_ERROR
      case Other(text) => text;
    SanitizeMessage(message)
  }

  lemma SpaceIsSpace()
    ensures IsSpace(SPACE)
  {
  }

  lemma TrimStartShrinks(s: Text)
    ensures |TrimStart(s)| <= |s|
    ensures s != [] && IsSpace(s[0]) ==> |TrimStart(s)| < |s|
    ensures TrimStart(s) != [] ==> !IsSpace(TrimStart(s)[0])
  {
  }

  // ---------- The reference definition: words joined by single spaces ----------

  // The maximal whitespace-free runs of a message, in order.
  function Words(s: Text): (ws: seq<Text>)
    ensures s != [] && !IsSpace(s[0]) ==> ws != []
  {
    if s == [] then []
    else if IsSpace(s[0]) then Words(s[1..])
    else if |s| == 1 || IsSpace(s[1]) then [[s[0]]] + Words(s[1..])
    else var ws := Words(s[1..]); [[s[0]] + ws[0]] + ws[1..]
  }

  function Join(ws: seq<Text>): Text {
    if ws == [] then []
    else if |ws| == 1 then ws[0]
    else ws[0] + [SPACE] + Join(ws[1..])
  }

  predicate IsWord(w: Text) {
    w != [] && forall i :: 0 <= i < |w| ==> !IsSpace(w[i])
  }

  predicate AllWords(ws: seq<Text>) {
    forall i :: 0 <= i < |ws| ==> IsWord(ws[i])
  }

  // Every whitespace unit is a single plain space: none is followed by another.
  predicate SinglySpaced(s: Text) {
    forall i :: 0 <= i < |s| && IsSpace(s[i]) ==> s[i] == SPACE && (i + 1 < |s| ==> !IsSpace(s[i + 1]))
  }

  function NonSpace(s: Text): Text {
    if s == [] then []
    else if IsSpace(s[0]) then NonSpace(s[1..])
    else [s[0]] + NonSpace(s[1..])
  }

  lemma {:induction false} WordsAreWords(s: Text)
    ensures AllWords(Words(s))
  {
    hide IsSpace;
    if s != [] {
      WordsAreWords(s[1..]);
    }
  }

  lemma {:induction false} WordsOfTrimStart(s: Text)
    ensures Words(TrimStart(s)) == Words(s)
  {
    hide IsSpace;
    if s != [] && IsSpace(s[0]) {
      WordsOfTrimStart(s[1..]);
    }
  }

  function Lead(s: Text): Text {
    if s != [] && IsSpace(s[0]) then [SPACE] else []
  }

  function Tail(s: Text): Text {
    if s != [] && IsSpace(s[|s| - 1]) then [SPACE] else []
  }

  lemma {:induction false} TrimStartKeepsEnd(s: Text)
    requires TrimStart(s) != []
    ensures Tail(TrimStart(s)) == Tail(s)
  {
    hide IsSpace;
    if IsSpace(s[0]) {
      TrimStartKeepsEnd(s[1..]);
    }
  }

  lemma {:induction false} NoWordsNoText(s: Text)
    ensures Words(s) == [] <==> TrimStart(s) == []
  {
    hide IsSpace;
    if s != [] && IsSpace(s[0]) {
      NoWordsNoText(s[1..]);
    }
  }

  function Joined(s: Text): Text {
    Join(Words(s))
  }

  lemma JoinedLetterLetter(s: Text)
    requires |s| > 1 && !IsSpace(s[0]) && !IsSpace(s[1])
    ensures Joined(s) == [s[0]] + Joined(s[1..]) && Words(s) != []
  {
    hide IsSpace;
    var ws := Words(s[1..]);
    assert Words(s)[1..] == ws[1..];
  }

  lemma JoinedLetterBlank(s: Text)
    requires |s| > 1 && !IsSpace(s[0]) && IsSpace(s[1])
    ensures Joined(s) == if Words(s[1..]) == [] then [s[0]] else [s[0], SPACE] + Joined(s[1..])
    ensures Words(s) != []
  {
    hide IsSpace;
    var ws := Words(s[1..]);
    assert Words(s) == [[s[0]]] + ws;
    if ws != [] {
      assert Words(s)[1..] == ws;
    }
  }

  // Collapsing leaves the words joined by single spaces, with at most one space on either side.
  function Collapsed(s: Text): Text {
    if Words(s) == [] then Lead(s) else Lead(s) + Joined(s) + Tail(s)
  }

  lemma CollapsedAfterBlank(s: Text)
    requires s != [] && IsSpace(s[0])
    ensures Collapsed(s) == [SPACE] + Collapsed(TrimStart(s))
  {
    hide IsSpace;
    hide Join;
    WordsOfTrimStart(s);
    NoWordsNoText(s);
    TrimStartShrinks(s);
    if TrimStart(s) != [] {
      TrimStartKeepsEnd(s);
    }
  }

  lemma CollapsedAfterLetter(s: Text)
    requires |s| > 1 && !IsSpace(s[0])
    ensures Collapsed(s) == [s[0]] + Collapsed(s[1..])
  {
    hide IsSpace;
    hide Words;
    hide Joined;
    var r := s[1..];
    assert r[|r| - 1] == s[|s| - 1];
    assert Tail(s) == Tail(r) && Lead(s) == [];
    if IsSpace(s[1]) {
      JoinedLetterBlank(s);
      if Words(r) == [] {
        NoWordsNoText(r);
        AllBlankEndsBlank(r);
      }
    } else {
      JoinedLetterLetter(s);
      assert Words(r) != [];
    }
  }

  lemma {:induction false} CollapseShape(s: Text)
    ensures CollapseWhitespace(s) == Collapsed(s)
    decreases |s|
  {
    hide IsSpace;
    hide Collapsed;
    if s == [] || |s| == 1 {
      CollapsedShort(s);
    } else if IsSpace(s[0]) {
      TrimStartShrinks(s);
      CollapseShape(TrimStart(s));
      CollapsedAfterBlank(s);
    } else {
      CollapseShape(s[1..]);
      CollapsedAfterLetter(s);
    }
  }

  lemma CollapsedShort(s: Text)
    requires |s| <= 1
    ensures CollapseWhitespace(s) == Collapsed(s)
  {
    hide IsSpace;
    if |s| == 1 {
      ShortWords(s);
      ShortCollapse(s);
      hide Words;
      hide CollapseWhitespace;
    }
  }

  lemma ShortWords(s: Text)
    requires |s| == 1
    ensures if IsSpace(s[0]) then Words(s) == [] else Words(s) == [s]
  {
    hide IsSpace;
    assert s[1..] == [];
    assert s == [s[0]];
  }

  lemma ShortCollapse(s: Text)
    requires |s| == 1
    ensures CollapseWhitespace(s) == if IsSpace(s[0]) then [SPACE] else s
  {
    hide IsSpace;
    assert s[1..] == [];
    if IsSpace(s[0]) {
      assert TrimStart(s) == TrimStart(s[1..]) == [];
    }
    assert s == [s[0]];
  }

  lemma {:induction false} AllBlankEndsBlank(s: Text)
    requires s != [] && TrimStart(s) == []
    ensures IsSpace(s[|s| - 1])
  {
    hide IsSpace;
    if |s| > 1 {
      AllBlankEndsBlank(s[1..]);
    }
  }

  lemma {:induction false} JoinEnds(ws: seq<Text>)
    requires ws != [] && AllWords(ws)
    ensures Join(ws) != [] && !IsSpace(Join(ws)[0]) && !IsSpace(Join(ws)[|Join(ws)| - 1])
  {
    hide IsSpace;
    assert IsWord(ws[0]);
    if |ws| > 1 {
      JoinEnds(ws[1..]);
    }
  }

  lemma {:induction false} JoinSinglySpaced(ws: seq<Text>)
    requires AllWords(ws)
    ensures SinglySpaced(Join(ws))
  {
    SpaceIsSpace();
    hide IsSpace;
    if ws != [] {
      assert IsWord(ws[0]);
      if |ws| > 1 {
        JoinSinglySpaced(ws[1..]);
        JoinEnds(ws[1..]);
        var rest := Join(ws[1..]);
        var head := ws[0] + [SPACE];
        assert Join(ws) == head + rest;
        forall i | 0 <= i < |Join(ws)| && IsSpace(Join(ws)[i])
          ensures Join(ws)[i] == SPACE && (i + 1 < |Join(ws)| ==> !IsSpace(Join(ws)[i + 1]))
        {
          if i >= |head| {
            assert Join(ws)[i] == rest[i - |head|];
            assert i + 1 < |Join(ws)| ==> Join(ws)[i + 1] == rest[i + 1 - |head|];
          } else {
            assert i == |ws[0]|;
            assert Join(ws)[i + 1] == rest[0];
          }
        }
      }
    }
  }

  lemma TrimEndOfTail(j: Text, tail: Text)
    requires j != [] ==> !IsSpace(j[|j| - 1])
    requires tail == [] || (|tail| == 1 && IsSpace(tail[0]))
    ensures TrimEnd(j + tail) == j
  {
    hide IsSpace;
    if tail == [] {
      assert j + tail == j;
    } else {
      assert (j + tail)[..|j + tail| - 1] == j;
      assert TrimEnd(j) == j;
    }
  }

  lemma TrimStartOfLead(lead: Text, j: Text)
    requires j != [] ==> !IsSpace(j[0])
    requires lead == [] || (|lead| == 1 && IsSpace(lead[0]))
    ensures TrimStart(lead + j) == j
  {
    hide IsSpace;
    if lead == [] {
      assert lead + j == j;
    } else {
      assert (lead + j)[1..] == j;
    }
  }

  // Normalising is exactly joining the words by single spaces.
  lemma TrimCollapseIsJoin(s: Text)
    ensures Trim(CollapseWhitespace(s)) == Join(Words(s))
  {
    hide IsSpace;
    hide Words;
    hide Join;
    SpaceIsSpace();
    CollapseShape(s);
    WordsAreWords(s);
    if Words(s) == [] {
      TrimStartOfLead(Lead(s), []);
      assert Lead(s) + [] == Lead(s);
      EmptyJoin();
    } else {
      JoinEnds(Words(s));
      var j := Join(Words(s));
      assert Collapsed(s) == Lead(s) + (j + Tail(s));
      TrimStartOfLead(Lead(s), j + Tail(s));
      TrimEndOfTail(j, Tail(s));
    }
  }

  lemma EmptyJoin()
    ensures Join([]) == [] && Trim([]) == []
  {
  }

  // ---------- What a stored message looks like ----------

  lemma SanitizedIsJoinedWords(message: Text)
    ensures SanitizeMessage(message) == Truncate(Join(Words(message)), MAX_ERROR_MESSAGE_LENGTH)
    ensures var t := Join(Words(message)); SanitizeMessage(message) == if |t| <= 500 then t else t[..500]
  {
    TrimCollapseIsJoin(message);
  }

  lemma {:induction false} NonSpaceConcat(a: Text, b: Text)
    ensures NonSpace(a + b) == NonSpace(a) + NonSpace(b)
  {
    hide IsSpace;
    if a == [] {
      assert a + b == b;
    } else {
      assert (a + b)[0] == a[0] && (a + b)[1..] == a[1..] + b;
      NonSpaceConcat(a[1..], b);
    }
  }

  lemma {:induction false} NonSpaceOfWords(s: Text)
    ensures NonSpace(Joined(s)) == NonSpace(s)
  {
    hide IsSpace;
    hide Words;
    hide Joined;
    if |s| > 1 {
      NonSpaceOfWords(s[1..]);
      if IsSpace(s[0]) {
        JoinedBlank(s);
      } else if IsSpace(s[1]) {
        JoinedLetterBlank(s);
        EmptyJoined(s[1..]);
        SpaceIsSpace();
        if Words(s[1..]) != [] {
          NonSpaceConcat([s[0], SPACE], Joined(s[1..]));
          assert [s[0], SPACE][1..] == [SPACE];
        }
      } else {
        JoinedLetterLetter(s);
      }
    } else {
      JoinedShort(s);
    }
  }

  lemma JoinedBlank(s: Text)
    requires s != [] && IsSpace(s[0])
    ensures Joined(s) == Joined(s[1..])
  {
    hide IsSpace;
  }

  lemma JoinedShort(s: Text)
    requires |s| <= 1
    ensures NonSpace(Joined(s)) == NonSpace(s)
  {
    hide IsSpace;
  }

  lemma EmptyJoined(s: Text)
    ensures Words(s) == [] ==> Joined(s) == []
  {
  }

  // A stored message is short, starts with a visible character, holds only single plain
  // spaces, and its visible characters are a prefix of those of the original message.
  lemma SanitizedShape(message: Text)
    ensures var r := SanitizeMessage(message);
      && |r| <= 500
      && (r != [] ==> !IsSpace(r[0]))
      && SinglySpaced(r)
      && NonSpace(r) <= NonSpace(message)
      && (|Join(Words(message))| <= 500 ==> NonSpace(r) == NonSpace(message))
  {
    hide IsSpace;
    SanitizedIsJoinedWords(message);
    WordsAreWords(message);
    JoinSinglySpaced(Words(message));
    NonSpaceOfWords(message);
    var j := Join(Words(message));
    var r := SanitizeMessage(message);
    if Words(message) != [] {
      JoinEnds(Words(message));
    }
    assert r == j[..|r|];
    assert j == r + j[|r|..];
    NonSpaceConcat(r, j[|r|..]);
  }

  lemma {:induction false} SinglySpacedCollapses(s: Text)
    requires SinglySpaced(s)
    ensures CollapseWhitespace(s) == s
  {
    hide IsSpace;
    if s != [] {
      assert SinglySpaced(s[1..]) by {
        forall i | 0 <= i < |s[1..]| && IsSpace(s[1..][i])
          ensures s[1..][i] == SPACE && (i + 1 < |s[1..]| ==> !IsSpace(s[1..][i + 1]))
        {
          assert s[1..][i] == s[i + 1];
        }
      }
      SinglySpacedCollapses(s[1..]);
      if IsSpace(s[0]) {
        assert TrimStart(s) == TrimStart(s[1..]) == s[1..];
      }
    }
  }

  lemma BeforeTrailingSpace(r: Text)
    requires SinglySpaced(r) && r != [] && !IsSpace(r[0]) && IsSpace(r[|r| - 1])
    ensures |r| > 1 && !IsSpace(r[|r| - 2])
  {
    hide IsSpace;
    assert |r| > 1;
    var i := |r| - 2;
    var last := r[i + 1];
    assert IsSpace(last);
  }

  // Sanitising a stored message again only strips the one trailing space a cut may leave.
  lemma ResanitizeDropsTrailingSpace(message: Text)
    ensures var r := SanitizeMessage(message);
      SanitizeMessage(r) == if r != [] && IsSpace(r[|r| - 1]) then r[..|r| - 1] else r
  {
    hide IsSpace;
    SanitizedShape(message);
    var r := SanitizeMessage(message);
    SinglySpacedCollapses(r);
    if r != [] && IsSpace(r[|r| - 1]) {
      BeforeTrailingSpace(r);
      var q := r[..|r| - 1];
      assert q[|q| - 1] == r[|r| - 2];
      assert TrimEnd(q) == q;
    }
  }

  // Sanitising is idempotent on a message exactly when the cut at 500 units does not fall
  // right after a space between two words.
  lemma IdempotentIff(message: Text)
    ensures var t := Join(Words(message));
      SanitizeMessage(SanitizeMessage(message)) == SanitizeMessage(message)
      <==> (|t| <= 500 || t[499] != SPACE)
  {
    SpaceIsSpace();
    hide IsSpace;
    var t := Join(Words(message));
    SanitizedIsJoinedWords(message);
    ResanitizeDropsTrailingSpace(message);
    WordsAreWords(message);
    JoinSinglySpaced(Words(message));
    if Words(message) != [] {
      JoinEnds(Words(message));
    }
  }

  // Two applications always reach a fixed point.
  lemma TwiceIsFixed(message: Text)
    ensures var r := SanitizeMessage(SanitizeMessage(message)); SanitizeMessage(r) == r
  {
    hide IsSpace;
    var r := SanitizeMessage(message);
    SanitizedShape(message);
    ResanitizeDropsTrailingSpace(message);
    ResanitizeDropsTrailingSpace(r);
    if r != [] && IsSpace(r[|r| - 1]) {
      BeforeTrailingSpace(r);
    }
  }

  // A singly spaced message without outer spaces is only cut.
  lemma NormalIsOnlyCut(message: Text)
    requires SinglySpaced(message)
    requires message != [] ==> !IsSpace(message[0]) && !IsSpace(message[|message| - 1])
    ensures SanitizeMessage(message) == Truncate(message, MAX_ERROR_MESSAGE_LENGTH)
  {
    hide IsSpace;
    SinglySpacedCollapses(message);
    assert Trim(message) == message;
  }

  // Sanitising leaves a message as it is exactly when it is short and already normal.
  lemma FixedPointIff(message: Text)
    ensures SanitizeMessage(message) == message <==>
      && |message| <= 500
      && SinglySpaced(message)
      && (message != [] ==> !IsSpace(message[0]) && !IsSpace(message[|message| - 1]))
  {
    hide IsSpace;
    SanitizedShape(message);
    ResanitizeDropsTrailingSpace(message);
    if SinglySpaced(message) {
      SinglySpacedCollapses(message);
    }
  }

  // What is stored of a thrown value: the message of an error, the text of any other value, and a
  // fixed text for none, normalised and cut.
  lemma SanitizedThrown(error: Thrown)
    ensures var message :=
        match error
        case ErrorObject(text) => text
        case Nullish => Ascii("Unknown error")
        case Other(text) => text;
      var t := Join(Words(message));
      SanitizeProcessingError(error) == if |t| <= 500 then t else t[..500]
  {
    hide Words;
    match error
    case ErrorObject(text) => SanitizedIsJoinedWords(text);
    case Nullish => SanitizedIsJoinedWords(UNKNOWN_ERROR);
    case Other(text) => SanitizedIsJoinedWords(text);
  }
}
