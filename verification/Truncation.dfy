/** Shortening messages that the Matrix server refuses: internal/matrix/format.go and truncateLarge in matrix.go. */
module Truncation {

  // ----- strings.Split, strings.Join and strings.ReplaceAll for a separator that is not empty

  function Split(s: string, sep: string): (parts: seq<string>)
    requires sep != ""
    ensures parts != []
    decreases |s|
  {
    if s == "" then [""]
    else if sep <= s then [""] + Split(s[|sep|..], sep)
    else
      var rest := Split(s[1..], sep);
      [[s[0]] + rest[0]] + rest[1..]
  }

  function Join(parts: seq<string>, sep: string): string {
    if parts == [] then "" else if |parts| == 1 then parts[0] else parts[0] + sep + Join(parts[1..], sep)
  }

  function ReplaceAll(s: string, from: string, to: string): string
    requires from != ""
  {
    Join(Split(s, from), to)
  }

  // ----- format.go

  const NEWLINE := "\n"
  const HTML_NEWLINE := "<br>"

  // html.EscapeString
  function Escape(c: char): string {
    if c == '&' then "&amp;"
    else if c == '\'' then "&#39;"
    else if c == '<' then "&lt;"
    else if c == '>' then "&gt;"
    else if c == '"' then "&#34;"
    else [c]
  }

  function EscapeString(s: string): string {
    if s == "" then "" else Escape(s[0]) + EscapeString(s[1..])
  }

  function FormatHtml(text: string): string {
    ReplaceAll(EscapeString(text), NEWLINE, HTML_NEWLINE)
  }

  /** The number of lines that remain of n. */
  function Remaining(n: nat): (r: nat)
    ensures n > 0 ==> r < n
  {
    if n == 0 then 0 else if n / 10 > 1 then n - n / 10 else n - 1
  }

  function TruncateSplits(s: string, split: string): string
    requires split != ""
  {
    var lines := Split(s, split);
    Join(lines[..Remaining(|lines|)], split)
  }

  function TruncateLines(text: string, html: string): (string, string) {
    (TruncateSplits(text, NEWLINE), TruncateSplits(html, HTML_NEWLINE))
  }

  // ----- splitting and joining are inverse

  /** A part in which no occurrence of the separator can begin. */
  predicate Free(part: string, sep: string)
    requires sep != ""
  {
    sep[0] !in part
  }

  lemma {:induction false} SplitFree(part: string, rest: string, sep: string)
    requires sep != "" && Free(part, sep) && rest != ""
    ensures var tail := Split(rest, sep); Split(part + rest, sep) == [part + tail[0]] + tail[1..]
  {
    if part == "" {
      var tail := Split(rest, sep);
      assert part + rest == rest && part + tail[0] == tail[0] && [tail[0]] + tail[1..] == tail;
    } else {
      SplitFree(part[1..], rest, sep);
      var whole, tail := part + rest, Split(rest, sep);
      assert whole[1..] == part[1..] + rest && whole[0] == part[0];
      assert !(sep <= whole);
      var inner := Split(whole[1..], sep);
      assert inner[0] == part[1..] + tail[0] && inner[1..] == tail[1..];
      assert Split(whole, sep) == [[whole[0]] + inner[0]] + inner[1..];
      assert [part[0]] + (part[1..] + tail[0]) == part + tail[0];
    }
  }

  lemma {:induction false} SplitSingle(part: string, sep: string)
    requires sep != "" && Free(part, sep)
    ensures Split(part, sep) == [part]
  {
    if part != "" {
      SplitSingle(part[1..], sep);
      assert [part[0]] + part[1..] == part;
    }
  }

  lemma {:induction false} SplitOfJoin(parts: seq<string>, sep: string)
    requires sep != "" && parts != [] && forall p :: p in parts ==> Free(p, sep)
    ensures Split(Join(parts, sep), sep) == parts
  {
    if |parts| == 1 {
      SplitSingle(parts[0], sep);
    } else {
      var tail := Join(parts[1..], sep);
      SplitOfJoin(parts[1..], sep);
      SplitFree(parts[0], sep + tail, sep);
      assert parts[0] + sep + tail == parts[0] + (sep + tail);
      assert (sep + tail)[|sep|..] == tail && sep <= sep + tail;
      assert parts[0] + "" == parts[0];
    }
  }

  lemma {:induction false} LinesAreFree(s: string)
    ensures forall p :: p in Split(s, NEWLINE) ==> Free(p, NEWLINE)
  {
    if s != "" {
      LinesAreFree(s[1..]);
      var lines, rest := Split(s, NEWLINE), Split(s[1..], NEWLINE);
      assert rest[0] in rest;
      if s[0] == '\n' {
        assert lines == [""] + rest;
      } else {
        assert lines == [[s[0]] + rest[0]] + rest[1..];
      }
    }
  }

  // ----- rendering works line by line

  function EscapeAll(lines: seq<string>): (escaped: seq<string>)
    ensures |escaped| == |lines|
    ensures forall i :: 0 <= i < |lines| ==> escaped[i] == EscapeString(lines[i])
  {
    seq(|lines|, i requires 0 <= i < |lines| => EscapeString(lines[i]))
  }

  lemma EscapeCharIsFree(c: char)
    ensures '<' !in Escape(c) && (c != '\n' ==> '\n' !in Escape(c))
  {
    assert |Escape(c)| <= 5;
    forall i | 0 <= i < |Escape(c)| ensures Escape(c)[i] != '<' && (c != '\n' ==> Escape(c)[i] != '\n') {}
  }

  lemma {:induction false} EscapeIsFree(s: string)
    ensures '<' !in EscapeString(s)
    ensures '\n' !in s ==> '\n' !in EscapeString(s)
  {
    if s != "" {
      EscapeIsFree(s[1..]);
      EscapeCharIsFree(s[0]);
      var e, rest := Escape(s[0]), EscapeString(s[1..]);
      assert EscapeString(s) == e + rest;
      assert s == [s[0]] + s[1..];
    }
  }

  lemma {:induction false} SplitOfEscape(s: string)
    ensures Split(EscapeString(s), NEWLINE) == EscapeAll(Split(s, NEWLINE))
  {
    if s != "" {
      SplitOfEscape(s[1..]);
      var e, rest := Escape(s[0]), EscapeString(s[1..]);
      if s[0] == '\n' {
        assert (e + rest)[1..] == rest;
      } else {
        SplitFreeBefore(e, rest, NEWLINE);
      }
    }
  }

  lemma SplitFreeBefore(part: string, rest: string, sep: string)
    requires sep != "" && Free(part, sep)
    ensures var tail := Split(rest, sep); Split(part + rest, sep) == [part + tail[0]] + tail[1..]
  {
    if rest == "" {
      SplitSingle(part, sep);
      assert part + rest == part;
    } else {
      SplitFree(part, rest, sep);
    }
  }

  /** The lines of the rendered text are the renderings of the lines of the text. */
  lemma LinesOfHtml(text: string)
    ensures Split(FormatHtml(text), HTML_NEWLINE) == EscapeAll(Split(text, NEWLINE))
  {
    SplitOfEscape(text);
    var escaped := EscapeAll(Split(text, NEWLINE));
    forall p | p in escaped ensures Free(p, HTML_NEWLINE) {
      var i :| 0 <= i < |escaped| && escaped[i] == p;
      EscapeIsFree(Split(text, NEWLINE)[i]);
      assert HTML_NEWLINE[0] == '<';
    }
    SplitOfJoin(escaped, HTML_NEWLINE);
  }

  /** Truncating the rendered text renders the truncated text. */
  lemma TruncationCommutesWithRendering(text: string)
    ensures TruncateSplits(FormatHtml(text), HTML_NEWLINE) == FormatHtml(TruncateSplits(text, NEWLINE))
  {
    LinesOfHtml(text);
    LinesAreFree(text);
    var lines := Split(text, NEWLINE);
    var kept := lines[..Remaining(|lines|)];
    assert EscapeAll(lines)[..|kept|] == EscapeAll(kept);
    SplitOfEscape(Join(kept, NEWLINE));
    if kept != [] {
      SplitOfJoin(kept, NEWLINE);
    }
  }

  // ----- repeated truncation

  /** Truncating k times. */
  function Truncated(s: string, split: string, k: nat): string
    requires split != ""
  {
    if k == 0 then s else TruncateSplits(Truncated(s, split, k - 1), split)
  }

  /** The number of lines left of n after k truncations. */
  function Left(n: nat, k: nat): (left: nat)
    ensures left + k <= n || left == 0
  {
    if k == 0 then n else Remaining(Left(n, k - 1))
  }

  lemma JoinHead(c: char, parts: seq<string>, sep: string)
    requires parts != []
    ensures Join([[c] + parts[0]] + parts[1..], sep) == [c] + Join(parts, sep)
  {
    var extended := [[c] + parts[0]] + parts[1..];
    if |parts| > 1 {
      assert extended[1..] == parts[1..];
    }
  }

  /** The first k lines, joined, are a prefix of the text, and splitting them again gives the same lines. */
  lemma {:induction false} SplitOfPrefix(s: string, sep: string, k: nat)
    requires sep != "" && 0 < k <= |Split(s, sep)|
    ensures Join(Split(s, sep)[..k], sep) <= s
    ensures Split(Join(Split(s, sep)[..k], sep), sep) == Split(s, sep)[..k]
    decreases |s|
  {
    var parts := Split(s, sep);
    if s == "" {
    } else if sep <= s {
      var rest := Split(s[|sep|..], sep);
      assert parts[0] == "" && parts[1..] == rest;
      if k > 1 {
        SplitOfPrefix(s[|sep|..], sep, k - 1);
        assert parts[..k] == [""] + rest[..k - 1];
        JoinEmptyHead(rest[..k - 1], sep);
        PrefixAfter(s, sep, Join(rest[..k - 1], sep));
        SplitAtSep(Join(rest[..k - 1], sep), sep);
      }
    } else {
      var rest := Split(s[1..], sep);
      SplitOfPrefix(s[1..], sep, k);
      assert parts[..k] == [[s[0]] + rest[..k][0]] + rest[..k][1..];
      SplitAfterChar(s, rest[..k], sep);
    }
  }

  lemma SplitAfterChar(s: string, kept: seq<string>, sep: string)
    requires sep != "" && s != "" && !(sep <= s) && kept != []
    requires Join(kept, sep) <= s[1..] && Split(Join(kept, sep), sep) == kept
    ensures var extended := [[s[0]] + kept[0]] + kept[1..];
            Join(extended, sep) <= s && Split(Join(extended, sep), sep) == extended
  {
    JoinHead(s[0], kept, sep);
    var head := [s[0]] + Join(kept, sep);
    assert s == [s[0]] + s[1..] && head <= s && head[1..] == Join(kept, sep);
    assert !(sep <= head);
  }

  lemma JoinEmptyHead(lines: seq<string>, sep: string)
    requires lines != []
    ensures Join([""] + lines, sep) == sep + Join(lines, sep)
  {
    var extended := [""] + lines;
    assert extended[0] == "" && extended[1..] == lines;
    assert "" + sep == sep;
  }

  lemma SplitAtSep(tail: string, sep: string)
    requires sep != ""
    ensures Split(sep + tail, sep) == [""] + Split(tail, sep)
  {
    assert (sep + tail)[|sep|..] == tail && sep <= sep + tail;
  }

  lemma PrefixAfter(s: string, head: string, tail: string)
    requires head <= s && tail <= s[|head|..]
    ensures head + tail <= s
  {
  }

  /** However often it is truncated, what is left of a text is a number of its first lines. */
  lemma {:induction false} TruncatedIsPrefix(s: string, split: string, k: nat)
    requires split != ""
    ensures Left(|Split(s, split)|, k) <= |Split(s, split)|
    ensures k > 0 ==> Truncated(s, split, k) == Join(Split(s, split)[..Left(|Split(s, split)|, k)], split)
  {
    if k > 0 {
      TruncatedIsPrefix(s, split, k - 1);
      var lines := Split(s, split);
      var n := Left(|lines|, k - 1);
      if k > 1 {
        LinesOfPrefix(s, split, n);
      }
    }
  }

  lemma LinesOfPrefix(s: string, split: string, n: nat)
    requires split != "" && n <= |Split(s, split)|
    ensures TruncateSplits(Join(Split(s, split)[..n], split), split) == Join(Split(s, split)[..Remaining(n)], split)
  {
    var lines := Split(s, split);
    if n > 0 {
      SplitOfPrefix(s, split, n);
      assert lines[..n][..Remaining(n)] == lines[..Remaining(n)];
    }
  }

  /** A tenth of the lines is dropped, rounded down, but at least one; the others stay as they are. */
  lemma TenthIsDropped(s: string, split: string)
    requires split != ""
    ensures var lines := Split(s, split);
            var dropped := |lines| - Remaining(|lines|);
            && 1 <= dropped <= |lines| && (dropped > 1 ==> 10 * dropped <= |lines|) && |lines| < 10 * (dropped + 1)
            && TruncateSplits(s, split) == Join(lines[..|lines| - dropped], split)
            && (dropped < |lines| ==> Split(TruncateSplits(s, split), split) == lines[..|lines| - dropped])
  {
    var n := Remaining(|Split(s, split)|);
    if n > 0 { SplitOfPrefix(s, split, n); }
  }

  // ----- the rendered text determines the original

  /** Reading HTML back: line breaks and the five entities, each for one character. */
  function Unrender(html: string): string {
    if html == "" then ""
    else if "<br>" <= html then "\n" + Unrender(html[4..])
    else if "&amp;" <= html then "&" + Unrender(html[5..])
    else if "&lt;" <= html then "<" + Unrender(html[4..])
    else if "&gt;" <= html then ">" + Unrender(html[4..])
    else if "&#39;" <= html then "'" + Unrender(html[5..])
    else if "&#34;" <= html then "\"" + Unrender(html[5..])
    else [html[0]] + Unrender(html[1..])
  }

  function RenderChar(c: char): string {
    if c == '\n' then HTML_NEWLINE else Escape(c)
  }

  lemma ReplaceInTail(part: string, rest: string)
    requires part != "" && (part == NEWLINE || '\n' !in part)
    ensures ReplaceAll(part + rest, NEWLINE, HTML_NEWLINE)
            == (if part == NEWLINE then HTML_NEWLINE else part) + ReplaceAll(rest, NEWLINE, HTML_NEWLINE)
  {
    var tail := Split(rest, NEWLINE);
    if part == NEWLINE {
      SplitAtSep(rest, NEWLINE);
      JoinEmptyHead(tail, HTML_NEWLINE);
    } else {
      SplitFreeBefore(part, rest, NEWLINE);
      JoinPartHead(part, tail, HTML_NEWLINE);
    }
  }

  lemma JoinPartHead(part: string, lines: seq<string>, sep: string)
    requires lines != []
    ensures Join([part + lines[0]] + lines[1..], sep) == part + Join(lines, sep)
  {
    var extended := [part + lines[0]] + lines[1..];
    if |lines| > 1 {
      assert extended[1..] == lines[1..];
      assert part + lines[0] + sep + Join(lines[1..], sep) == part + (lines[0] + sep + Join(lines[1..], sep));
    }
  }

  lemma FormatHtmlByChar(c: char, text: string)
    ensures FormatHtml([c] + text) == RenderChar(c) + FormatHtml(text)
  {
    var whole := [c] + text;
    assert whole[0] == c && whole[1..] == text;
    EscapeCharIsFree(c);
    assert EscapeString(whole) == Escape(c) + EscapeString(text);
    ReplaceInTail(Escape(c), EscapeString(text));
  }

  function ConcatMap(f: char -> string, s: string): string {
    if s == "" then "" else f(s[0]) + ConcatMap(f, s[1..])
  }

  lemma {:induction false} ConcatMapOfBoth(f: char -> string, s: string, tail: string)
    ensures ConcatMap(f, s + tail) == ConcatMap(f, s) + ConcatMap(f, tail)
  {
    if s == "" {
      assert s + tail == tail;
    } else {
      ConcatMapOfBoth(f, s[1..], tail);
      assert (s + tail)[0] == s[0] && (s + tail)[1..] == s[1..] + tail;
    }
  }

  /** The rendering of a text, character by character. */
  function Rendered(s: string): string {
    ConcatMap(RenderChar, s)
  }

  lemma {:induction false} FormatHtmlIsRendered(s: string)
    ensures FormatHtml(s) == Rendered(s)
  {
    if s != "" {
      FormatHtmlIsRendered(s[1..]);
      FormatHtmlByChar(s[0], s[1..]);
      assert s == [s[0]] + s[1..];
    }
  }

  // None of the six marks is a beginning of another one.
  lemma UnrenderMark(mark: string, c: char, rest: string)
    requires mark == RenderChar(c) && |mark| > 1
    ensures Unrender(mark + rest) == [c] + Unrender(rest)
  {
    var html := mark + rest;
    assert html[|mark|..] == rest && mark <= html;
    assert html[0] == mark[0] && html[1] == mark[1] && html[2] == mark[2] && html[3] == mark[3];
  }

  lemma UnrenderChar(c: char, rest: string)
    ensures Unrender(RenderChar(c) + rest) == [c] + Unrender(rest)
  {
    if |RenderChar(c)| > 1 {
      UnrenderMark(RenderChar(c), c, rest);
    } else {
      assert ([c] + rest)[1..] == rest && ([c] + rest)[0] == c;
    }
  }

  lemma {:induction false} RenderedIsReadBack(text: string)
    ensures Unrender(Rendered(text)) == text
  {
    if text != "" {
      RenderedIsReadBack(text[1..]);
      UnrenderChar(text[0], Rendered(text[1..]));
    }
  }

  /** The rendered text can be read back, so that it determines the text. */
  lemma RenderedTextIsReadBack(text: string)
    ensures Unrender(FormatHtml(text)) == text
  {
    FormatHtmlIsRendered(text);
    RenderedIsReadBack(text);
  }

  // ----- truncateLarge

  const WARNING := "\U{26A0}\U{FE0F} " + "Warning: " + "This message " + "has been " + "truncated"

  /** The server's answer; tooLarge if the error contains M_TOO_LARGE. */
  datatype Response = Response(ok: bool, eventId: string, tooLarge: bool)

  function Notice(text: string, html: string): (string, string) {
    (text + "...\n\n" + WARNING, html + "...<br><br>" + WARNING)
  }

  /** None of the characters is changed by rendering. */
  predicate Plain(s: string) {
    forall c :: c in s ==> c != '\n' && c != '&' && c != '\'' && c != '<' && c != '>' && c != '"'
  }

  lemma {:induction false} PlainIsRenderedAsIs(s: string)
    requires Plain(s)
    ensures Rendered(s) == s
  {
    if s != "" {
      assert s == [s[0]] + s[1..] && s[0] in s && forall c :: c in s[1..] ==> c in s;
      PlainIsRenderedAsIs(s[1..]);
    }
  }

  lemma NoticeIsRendered(text: string, dots: string, warning: string)
    requires Plain(dots) && Plain(warning)
    ensures Rendered(text + dots + "\n\n" + warning) == Rendered(text) + dots + "<br><br>" + warning
  {
    PlainIsRenderedAsIs(dots);
    PlainIsRenderedAsIs(warning);
    ConcatMapOfBoth(RenderChar, text + dots + "\n\n", warning);
    ConcatMapOfBoth(RenderChar, text + dots, "\n\n");
    ConcatMapOfBoth(RenderChar, text, dots);
    assert "\n\n"[1..] == "\n" && "\n"[1..] == "";
    assert Rendered("\n\n") == "<br>" + ("<br>" + "");
  }

  lemma PlainOfBoth(s: string, tail: string)
    requires Plain(s) && Plain(tail)
    ensures Plain(s + tail)
  {
  }

  lemma WordsArePlain()
    ensures Plain("\U{26A0}\U{FE0F} ") && Plain("Warning: ") && Plain("This message ") && Plain("has been ")
            && Plain("truncated")
  {
  }

  lemma WarningIsPlain()
    ensures Plain(WARNING)
  {
    var sign := "\U{26A0}\U{FE0F} ";
    WordsArePlain();
    PlainOfBoth(sign, "Warning: ");
    PlainOfBoth(sign + "Warning: ", "This message ");
    PlainOfBoth(sign + "Warning: " + "This message ", "has been ");
    PlainOfBoth(sign + "Warning: " + "This message " + "has been ", "truncated");
  }

  lemma NoticeInPieces(text: string, html: string)
    ensures Notice(text, html).0 == text + "..." + "\n\n" + WARNING
    ensures Notice(text, html).1 == html + "..." + "<br><br>" + WARNING
  {
    assert text + "...\n\n" == text + "..." + "\n\n";
    assert html + "...<br><br>" == html + "..." + "<br><br>";
  }

  /** The notice is put behind text and HTML alike: with it the HTML is still the rendering of the text. */
  lemma NoticeCommutesWithRendering(text: string)
    ensures FormatHtml(Notice(text, FormatHtml(text)).0) == Notice(text, FormatHtml(text)).1
  {
    var html := FormatHtml(text);
    WarningIsPlain();
    assert Plain("...");
    NoticeIsRendered(text, "...", WARNING);
    FormatHtmlIsRendered(text);
    FormatHtmlIsRendered(Notice(text, html).0);
    NoticeInPieces(text, html);
  }

  /** It leaves the text itself and its HTML as they are, and says that the message has been truncated. */
  lemma NoticeKeepsText(text: string, html: string)
    ensures text <= Notice(text, html).0 && html <= Notice(text, html).1
    ensures exists before, before' :: Notice(text, html) == (before + WARNING, before' + WARNING)
  {
    assert Notice(text, html) == (text + "...\n\n" + WARNING, html + "...<br><br>" + WARNING);
  }

  /** What is sent at attempt k. */
  function Attempt(text: string, html: string, k: nat): (string, string) {
    if k == 0 then (text, html) else Notice(Truncated(text, NEWLINE, k), Truncated(html, HTML_NEWLINE, k))
  }

  function MaxLines(text: string, html: string): (n: nat)
    ensures n > 0 && |Split(text, NEWLINE)| <= n && |Split(html, HTML_NEWLINE)| <= n
    ensures n == |Split(text, NEWLINE)| || n == |Split(html, HTML_NEWLINE)|
  {
    var a, b := |Split(text, NEWLINE)|, |Split(html, HTML_NEWLINE)|;
    if a < b then b else a
  }

  /** After as many attempts as the message has lines, every further one sends the emptied message with its notice. */
  lemma AttemptsEndEmptied(text: string, html: string, k: nat)
    requires k >= MaxLines(text, html)
    ensures Attempt(text, html, k) == Notice("", "")
  {
    TruncatedIsPrefix(text, NEWLINE, k);
    TruncatedIsPrefix(html, HTML_NEWLINE, k);
  }

  /** The first n attempts. */
  function Attempts(text: string, html: string, n: nat): (attempts: seq<(string, string)>)
    ensures |attempts| == n
    ensures forall k :: 0 <= k < n ==> attempts[k] == Attempt(text, html, k)
  {
    if n == 0 then [] else Attempts(text, html, n - 1) + [Attempt(text, html, n - 1)]
  }

  /** The server has refused the first n attempts as too large. */
  predicate Refused(send: (nat, string, string) -> Response, attempts: seq<(string, string)>) {
    forall k :: 0 <= k < |attempts| ==> send(k, attempts[k].0, attempts[k].1).tooLarge
  }

  /**
   * The attempts made: the message itself, then the notice behind fewer and fewer of its first lines, all refused as
   * too large but the last. If the emptied message is accepted there is at most one attempt more than lines.
   */
  method TruncateLarge(text: string, html: string, send: (nat, string, string) -> Response)
    returns (last: Response, sent: seq<(string, string)>)
    requires forall k: nat :: !send(k, Notice("", "").0, Notice("", "").1).tooLarge
    ensures 0 < |sent| <= MaxLines(text, html) + 1
    ensures sent == Attempts(text, html, |sent|)
    ensures Refused(send, sent[..|sent| - 1])
    ensures last == send(|sent| - 1, sent[|sent| - 1].0, sent[|sent| - 1].1) && !last.tooLarge
  {
    var shortText, shortHtml := text, html;
    var n := 0;
    sent := [(text, html)];
    last := send(0, text, html);
    while last.tooLarge
      invariant |sent| == n + 1 <= MaxLines(text, html) + 1
      invariant shortText == Truncated(text, NEWLINE, n) && shortHtml == Truncated(html, HTML_NEWLINE, n)
      invariant sent == Attempts(text, html, n + 1)
      invariant Refused(send, sent[..n])
      invariant last == send(n, sent[n].0, sent[n].1)
      decreases MaxLines(text, html) - n
    {
      EmptiedIsAccepted(text, html, send, n);
      var shorter := TruncateLines(shortText, shortHtml);
      shortText, shortHtml := shorter.0, shorter.1;
      var message := Notice(shortText, shortHtml);
      ghost var before := sent;
      n := n + 1;
      last := send(n, message.0, message.1);
      sent := sent + [message];
      assert sent[..n] == before && before == before[..n - 1] + [before[n - 1]];
    }
  }

  lemma EmptiedIsAccepted(text: string, html: string, send: (nat, string, string) -> Response, n: nat)
    requires forall k: nat :: !send(k, Notice("", "").0, Notice("", "").1).tooLarge
    requires send(n, Attempt(text, html, n).0, Attempt(text, html, n).1).tooLarge
    ensures n < MaxLines(text, html)
  {
    if n >= MaxLines(text, html) {
      AttemptsEndEmptied(text, html, n);
    }
  }
}
