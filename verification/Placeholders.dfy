/** The placeholder texts and how they are recognised: internal/textprocessor/llm.go. */
module Placeholders {
  import opened Chunking

  datatype LLM = Passthrough | PassthroughTest | Python {

    function GetPlaceholder(): (p: string)
      ensures SpaceDelimited(p)
    {
      match this
      case Python => "\n\n=== PLACEHOLDER ===\n\n"
      case _ => "\n"
    }

    predicate IsPlaceholder(msg: string) {
      !Passthrough? && exists i :: 0 <= i <= |msg| && MatchesAt(msg, i)
    }
  }

  // The class \s of the regular expression.
  predicate Blank(c: char) {
    c == '\t' || c == '\n' || c == '\U{000C}' || c == '\r' || c == ' '
  }

  /** Tab, line feed, form feed, carriage return and space; not the vertical tab, nor any other white space. */
  lemma BlanksAre(c: char)
    ensures Blank(c) <==> c as int in {9, 10, 12, 13, 32}
  {
  }

  function SkipBlanks(msg: string, i: nat): (j: nat)
    requires i <= |msg|
    ensures i <= j <= |msg|
    decreases |msg| - i
  {
    if i < |msg| && Blank(msg[i]) then SkipBlanks(msg, i + 1) else i
  }

  predicate HasAt(msg: string, i: nat, word: string) {
    i + |word| <= |msg| && msg[i..i + |word|] == word
  }

  /** The expression ==\s*PLACEHOLDER\s*== matches msg at offset i. */
  predicate MatchesAt(msg: string, i: nat) {
    HasAt(msg, i, "==") &&
    var j := SkipBlanks(msg, i + 2);
    HasAt(msg, j, "PLACEHOLDER") &&
    HasAt(msg, SkipBlanks(msg, j + 11), "==")
  }

  predicate AllBlank(s: string) {
    forall i :: 0 <= i < |s| ==> Blank(s[i])
  }

  /** A text of the form that the expression describes, with anything around it. */
  function PlaceholderIn(before: string, blanks: string, blanks': string, after: string): string {
    before + "==" + blanks + "PLACEHOLDER" + blanks' + "==" + after
  }

  lemma {:induction false} SkipsExactly(msg: string, i: nat, n: nat)
    requires i + n < |msg| && AllBlank(msg[i..i + n]) && !Blank(msg[i + n])
    ensures SkipBlanks(msg, i) == i + n
    decreases n
  {
    if n > 0 {
      assert msg[i..i + n][0] == msg[i];
      assert msg[i + 1..i + n] == msg[i..i + n][1..];
      SkipsExactly(msg, i + 1, n - 1);
    }
  }

  lemma {:induction false} SkipsBlanksOnly(msg: string, i: nat)
    requires i <= |msg|
    ensures AllBlank(msg[i..SkipBlanks(msg, i)])
    decreases |msg| - i
  {
    if i < |msg| && Blank(msg[i]) {
      SkipsBlanksOnly(msg, i + 1);
      assert msg[i..SkipBlanks(msg, i)] == [msg[i]] + msg[i + 1..SkipBlanks(msg, i + 1)];
    }
  }

  lemma PlaceholderPieces(before: string, left: string, blanks: string, word: string, blanks': string, right: string,
                          after: string)
    ensures var msg := before + left + blanks + word + blanks' + right + after;
            var i := |before| + |left|;
            var j := i + |blanks|;
            var k := j + |word| + |blanks'|;
            && msg[|before|..i] == left && msg[i..j] == blanks && msg[j..j + |word|] == word
            && msg[j + |word|..k] == blanks' && msg[k..k + |right|] == right
  {
  }

  lemma MatchesByPieces(msg: string, i: nat, j: nat, k: nat)
    requires i + 2 <= j && j + 11 <= k && k + 2 <= |msg|
    requires msg[i..i + 2] == "==" && msg[j..j + 11] == "PLACEHOLDER" && msg[k..k + 2] == "=="
    requires AllBlank(msg[i + 2..j]) && AllBlank(msg[j + 11..k])
    ensures MatchesAt(msg, i)
  {
    assert msg[j] == msg[j..j + 11][0] && msg[k] == msg[k..k + 2][0];
    SkipsExactly(msg, i + 2, j - (i + 2));
    SkipsExactly(msg, j + 11, k - (j + 11));
  }

  lemma PlaceholderMatches(before: string, blanks: string, blanks': string, after: string)
    requires AllBlank(blanks) && AllBlank(blanks')
    ensures MatchesAt(PlaceholderIn(before, blanks, blanks', after), |before|)
  {
    var msg, i := PlaceholderIn(before, blanks, blanks', after), |before|;
    var j := i + 2 + |blanks|;
    var k := j + 11 + |blanks'|;
    PlaceholderPieces(before, "==", blanks, "PLACEHOLDER", blanks', "==", after);
    MatchesByPieces(msg, i, j, k);
  }

  lemma Piece(msg: string, i: nat, j: nat)
    requires i <= j <= |msg|
    ensures msg[..i] + msg[i..j] == msg[..j] && msg[..j] + msg[j..] == msg
  {
  }

  lemma InPieces(msg: string, i: nat, j: nat, k: nat)
    requires i + 2 <= j && j + 11 <= k && k + 2 <= |msg|
    ensures msg == msg[..i] + msg[i..i + 2] + msg[i + 2..j] + msg[j..j + 11] + msg[j + 11..k] + msg[k..k + 2]
                   + msg[k + 2..]
  {
    Piece(msg, i, i + 2);
    Piece(msg, i + 2, j);
    Piece(msg, j, j + 11);
    Piece(msg, j + 11, k);
    Piece(msg, k, k + 2);
  }

  lemma MatchIsPlaceholder(msg: string, i: nat) returns (before: string, blanks: string, blanks': string, after: string)
    requires MatchesAt(msg, i)
    ensures AllBlank(blanks) && AllBlank(blanks') && msg == PlaceholderIn(before, blanks, blanks', after)
  {
    var j := SkipBlanks(msg, i + 2);
    var k := SkipBlanks(msg, j + 11);
    SkipsBlanksOnly(msg, i + 2);
    SkipsBlanksOnly(msg, j + 11);
    before, blanks, blanks', after := msg[..i], msg[i + 2..j], msg[j + 11..k], msg[k + 2..];
    InPieces(msg, i, j, k);
  }

  /**
   * A text is a placeholder if and only if it contains the word PLACEHOLDER between two pairs of equals signs with only
   * blanks in between. For the passthrough model none is.
   */
  lemma PlaceholderForm(llm: LLM, msg: string)
    ensures llm.IsPlaceholder(msg) <==>
              llm != Passthrough && exists before, blanks, blanks', after ::
                AllBlank(blanks) && AllBlank(blanks') && msg == PlaceholderIn(before, blanks, blanks', after)
  {
    if llm.IsPlaceholder(msg) {
      var i :| 0 <= i <= |msg| && MatchesAt(msg, i);
      var before, blanks, blanks', after := MatchIsPlaceholder(msg, i);
    } else if llm != Passthrough {
      forall before, blanks, blanks', after | AllBlank(blanks) && AllBlank(blanks')
        ensures msg != PlaceholderIn(before, blanks, blanks', after)
      {
        PlaceholderMatches(before, blanks, blanks', after);
      }
    }
  }

  /** The text that the Python service is given for a removed message is recognised when it comes back. */
  lemma PlaceholderIsRecognised()
    ensures Python.IsPlaceholder(Python.GetPlaceholder())
  {
    var p := Python.GetPlaceholder();
    assert HasAt(p, 3, "==");
    assert SkipBlanks(p, 5) == 6;
    assert HasAt(p, 6, "PLACEHOLDER");
    assert SkipBlanks(p, 17) == 18;
    assert HasAt(p, 18, "==");
    assert MatchesAt(p, 3);
  }
}
