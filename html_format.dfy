/**
 * `formatHTML` and `getHTMLDepth` of the module compiler: the markup is broken
 * into lines at every `><`, each line is trimmed, blank lines are dropped, and
 * each line is indented by two spaces per tag that the lines before it leave open.
 */
module HtmlFormat {
  import opened Wrappers
  import opened JsStrings

  // ---------------------------------------------------------------------------
  // Breaking and trimming
  // ---------------------------------------------------------------------------

  /** `html.replace(/></g, '>\n<')`: a line break between every `>` and the `<` right after it. */
  function Breaks(s: string): (r: string)
    ensures |r| >= |s|
    ensures s != [] ==> r != [] && r[0] == s[0]
    decreases |s|
  {
    if s == [] then []
    else if |s| >= 2 && s[0] == '>' && s[1] == '<' then ">\n" + Breaks(s[1..])
    else [s[0]] + Breaks(s[1..])
  }

  /** A `>` directly followed by `<` at index `i`. */
  predicate TagPairAt(s: string, i: nat)
    requires i + 1 < |s|
  {
    s[i] == '>' && s[i + 1] == '<'
  }

  /** No `>` is directly followed by `<`. */
  predicate Unbroken(s: string) {
    forall i :: 0 <= i < |s| - 1 ==> !TagPairAt(s, i)
  }

  /** After the replacement no `>` is directly followed by `<`. */
  lemma {:induction false} BreaksLeaveNoTagPair(s: string)
    ensures Unbroken(Breaks(s))
    decreases |s|
  {
    if s != [] {
      BreaksLeaveNoTagPair(s[1..]);
      var rest := Breaks(s[1..]);
      if |s| >= 2 && s[0] == '>' && s[1] == '<' {
        UnbrokenCons('\n', rest);
        UnbrokenCons('>', "\n" + rest);
        assert ">\n" + rest == ['>'] + ("\n" + rest);
      } else {
        UnbrokenCons(s[0], rest);
      }
    }
  }

  /** A character put before text without `><` adds none, unless it is a `>` before a `<`. */
  lemma UnbrokenCons(c: char, rest: string)
    requires Unbroken(rest) && (c == '>' && rest != [] ==> rest[0] != '<')
    ensures Unbroken([c] + rest)
  {
    var s := [c] + rest;
    forall i | 0 <= i < |s| - 1 ensures !TagPairAt(s, i) {
      if i > 0 {
        assert !TagPairAt(rest, i - 1);
      }
    }
  }

  /** Markup without a `><` is left as it is. */
  lemma {:induction false} BreaksKeepUnbroken(s: string)
    requires Unbroken(s)
    ensures Breaks(s) == s
    decreases |s|
  {
    if s != [] {
      assert Unbroken(s[1..]) by {
        forall i | 0 <= i < |s[1..]| - 1 ensures !TagPairAt(s[1..], i) {
          assert !TagPairAt(s, i + 1);
        }
      }
      BreaksKeepUnbroken(s[1..]);
      if |s| >= 2 {
        assert !TagPairAt(s, 0);
      }
      assert s == [s[0]] + s[1..];
    }
  }

  lemma Regroup<T>(w: seq<T>, x: seq<T>, y: seq<T>, z: seq<T>)
    ensures w + (x + y + z) == (w + x) + y + z
  {
  }

  /** Breaking a concatenation breaks each part, and once more where a `>` meets a `<`. */
  lemma {:induction false} BreaksAppend(a: string, b: string)
    ensures Breaks(a + b) ==
      Breaks(a) + (if a != [] && b != [] && a[|a| - 1] == '>' && b[0] == '<' then "\n" else "") + Breaks(b)
    decreases |a|
  {
    if a == [] {
      assert a + b == b;
    } else if |a| == 1 {
      assert (a + b)[1..] == b;
      assert Breaks(a) == a;
    } else {
      var t := a[1..];
      var head := if a[0] == '>' && a[1] == '<' then ">\n" else [a[0]];
      var mid := if b != [] && a[|a| - 1] == '>' && b[0] == '<' then "\n" else "";
      assert (a + b)[1..] == t + b && (a + b)[0] == a[0] && (a + b)[1] == a[1];
      assert Breaks(a + b) == head + Breaks(t + b);
      assert Breaks(a) == head + Breaks(t);
      assert t[|t| - 1] == a[|a| - 1];
      BreaksAppend(t, b);
      Regroup(head, Breaks(t), mid, Breaks(b));
    }
  }

  /** `.filter(line => line.length > 0)` */
  function NonBlank(lines: seq<string>): (r: seq<string>)
    ensures forall l :: l in r ==> l in lines && l != []
  {
    if lines == [] then []
    else (if lines[0] != [] then [lines[0]] else []) + NonBlank(lines[1..])
  }

  /** `.map(line => line.trim())` */
  function TrimAll(pieces: seq<string>): (r: seq<string>)
    ensures |r| == |pieces|
  {
    seq(|pieces|, i requires 0 <= i < |pieces| => Trim(pieces[i]))
  }

  /** The lines of `formatHTML` before indentation. */
  function Lines(html: string): seq<string> {
    NonBlank(TrimAll(Split(Breaks(html), '\n')))
  }

  /** A slice of a string without `><` has none either. */
  lemma SliceUnbroken(s: string, a: nat, b: nat)
    requires a <= b <= |s| && Unbroken(s)
    ensures Unbroken(s[a..b])
  {
    forall i | 0 <= i < |s[a..b]| - 1 ensures !TagPairAt(s[a..b], i) {
      assert !TagPairAt(s, a + i);
    }
  }

  /** The pieces of a split string without `><` have none either. */
  lemma {:induction false} SplitUnbroken(s: string)
    requires Unbroken(s)
    ensures forall p :: p in Split(s, '\n') ==> Unbroken(p)
    decreases |s|
  {
    match IndexOf(s, '\n')
    case None =>
    case Some(i) =>
      SliceUnbroken(s, 0, i);
      SliceUnbroken(s, i + 1, |s|);
      assert s[i + 1..|s|] == s[i + 1..];
      SplitUnbroken(s[i + 1..]);
  }

  /** Already trimmed, without a line break, and without a `>` directly followed by `<`. */
  predicate Clean(l: string) {
    Trim(l) == l && '\n' !in l && Unbroken(l)
  }

  /** A slice of a string without a character has none either. */
  lemma SliceWithout(s: string, a: nat, b: nat, c: char)
    requires a <= b <= |s| && c !in s
    ensures c !in s[a..b]
  {
    forall j | 0 <= j < b - a ensures s[a..b][j] != c {
      assert s[a..b][j] == s[a + j];
    }
  }

  /** A piece without line breaks or `><` trims to a clean line. */
  lemma TrimmedPieceClean(p: string)
    requires '\n' !in p && Unbroken(p)
    ensures Clean(Trim(p))
  {
    TrimIdempotent(p);
    TrimKeeps(p);
  }

  /** Trimming keeps text free of line breaks and of `><`. */
  lemma TrimKeeps(p: string)
    requires '\n' !in p && Unbroken(p)
    ensures '\n' !in Trim(p) && Unbroken(Trim(p))
  {
    var t := TrimStart(p);
    SliceUnbroken(p, |p| - |t|, |p|);
    SliceWithout(p, |p| - |t|, |p|, '\n');
    assert t == p[|p| - |t|..|p|];
    var r := TrimEnd(t);
    assert r == t[0..|r|];
    SliceUnbroken(t, 0, |r|);
    SliceWithout(t, 0, |r|, '\n');
  }

  /** Every line is non-empty and clean. */
  lemma LinesShape(html: string)
    ensures forall l :: l in Lines(html) ==> l != [] && Clean(l)
  {
    var pieces := Split(Breaks(html), '\n');
    BreaksLeaveNoTagPair(html);
    SplitUnbroken(Breaks(html));
    forall k | 0 <= k < |pieces| ensures Clean(TrimAll(pieces)[k]) {
      assert pieces[k] in pieces;
      TrimmedPieceClean(pieces[k]);
    }
    assert forall l :: l in TrimAll(pieces) ==> Clean(l);
  }

  // ---------------------------------------------------------------------------
  // The tags a line opens and closes
  // ---------------------------------------------------------------------------

  /** The longest prefix made of `\w` characters. */
  function WordRun(s: string): (r: string)
    ensures |r| <= |s| && r == s[..|r|]
    ensures forall i :: 0 <= i < |r| ==> IsWordChar(r[i])
    ensures |r| < |s| ==> !IsWordChar(s[|r|])
  {
    if s != [] && IsWordChar(s[0]) then [s[0]] + WordRun(s[1..]) else []
  }

  /** A match of `/<(\w+)[^>]*>/`: the tag name it captures, and whether its text contains `/>`. */
  datatype OpenMatch = OpenMatch(name: string, selfClosing: bool)

  /**
   * `line.match(/<(\w+)[^>]*>/g)`: a match starts at a `<` followed by a word
   * character and runs to the first `>` after it; the search resumes after it.
   */
  function OpenMatches(s: string): seq<OpenMatch>
    decreases |s|
  {
    if |s| < 2 then []
    else if s[0] == '<' && IsWordChar(s[1]) then
      match IndexOf(s, '>')
      case None => []
      case Some(j) => [OpenMatch(WordRun(s[1..]), Contains(s[..j + 1], "/>"))] + OpenMatches(s[j + 1..])
    else OpenMatches(s[1..])
  }

  /** `line.match(/<\/(\w+)>/g)`: the names of the closing tags, left to right. */
  function CloseMatches(s: string): seq<string>
    decreases |s|
  {
    if |s| < 3 then []
    else
      var name := WordRun(s[2..]);
      if s[0] == '<' && s[1] == '/' && name != [] && 2 + |name| < |s| && s[2 + |name|] == '>' then
        [name] + CloseMatches(s[3 + |name|..])
      else CloseMatches(s[1..])
  }

  // ---------------------------------------------------------------------------
  // The stack of open tags
  // ---------------------------------------------------------------------------

  /** `openTags.splice(openTags.lastIndexOf(name), 1)` when the name is open; nothing otherwise. */
  function RemoveLast(stack: seq<string>, name: string): (r: seq<string>)
    ensures |r| == if name in stack then |stack| - 1 else |stack|
    ensures multiset(r) == multiset(stack) - multiset{name}
  {
    if stack == [] then []
    else if stack[|stack| - 1] == name then
      assert stack == stack[..|stack| - 1] + [name];
      stack[..|stack| - 1]
    else
      var init := stack[..|stack| - 1];
      assert stack == init + [stack[|stack| - 1]];
      RemoveLast(init, name) + [stack[|stack| - 1]]
  }

  /** The stack after pushing the name of every opening match that is not self-closing. */
  function Pushed(stack: seq<string>, opens: seq<OpenMatch>): seq<string> {
    if opens == [] then stack
    else
      var last := opens[|opens| - 1];
      Pushed(stack, opens[..|opens| - 1]) + (if last.selfClosing then [] else [last.name])
  }

  /** The stack after removing, for each closing match in turn, the last open tag of that name. */
  function Popped(stack: seq<string>, closes: seq<string>): seq<string> {
    if closes == [] then stack
    else RemoveLast(Popped(stack, closes[..|closes| - 1]), closes[|closes| - 1])
  }

  /** One line's effect: its opening tags are pushed first, then its closing tags popped. */
  function AfterLine(stack: seq<string>, line: string): seq<string> {
    Popped(Pushed(stack, OpenMatches(line)), CloseMatches(line))
  }

  /** The tags the lines leave open, in the order they were opened. */
  function OpenTags(lines: seq<string>): seq<string> {
    if lines == [] then []
    else AfterLine(OpenTags(lines[..|lines| - 1]), lines[|lines| - 1])
  }

  /** `getHTMLDepth(line, previousLines)`: the number of tags the previous lines leave open. */
  function Depth(previousLines: seq<string>): nat {
    |OpenTags(previousLines)|
  }

  /** The names of the opening matches that are not self-closing, in order. */
  function Opened(opens: seq<OpenMatch>): seq<string> {
    if opens == [] then []
    else
      var last := opens[|opens| - 1];
      Opened(opens[..|opens| - 1]) + (if last.selfClosing then [] else [last.name])
  }

  /** Pushing appends the names of the tags that are not self-closing. */
  lemma {:induction false} PushedAppends(stack: seq<string>, opens: seq<OpenMatch>)
    ensures Pushed(stack, opens) == stack + Opened(opens)
    decreases |opens|
  {
    if opens != [] {
      PushedAppends(stack, opens[..|opens| - 1]);
    }
  }

  /** Each closing match removes at most one open tag, and never adds one. */
  lemma {:induction false} PoppedBounds(stack: seq<string>, closes: seq<string>)
    ensures |stack| - |closes| <= |Popped(stack, closes)| <= |stack|
    ensures multiset(Popped(stack, closes)) <= multiset(stack)
    decreases |closes|
  {
    if closes != [] {
      PoppedBounds(stack, closes[..|closes| - 1]);
    }
  }

  /**
   * A line changes the depth by at most the number of tags it opens upwards
   * and by at most the number of tags it closes downwards.
   */
  lemma DepthStep(lines: seq<string>, line: string)
    ensures Depth(lines) - |CloseMatches(line)| <= Depth(lines + [line]) <= Depth(lines) + |Opened(OpenMatches(line))|
  {
    assert (lines + [line])[..|lines|] == lines;
    PushedAppends(OpenTags(lines), OpenMatches(line));
    PoppedBounds(Pushed(OpenTags(lines), OpenMatches(line)), CloseMatches(line));
  }

  /** Only tags that some line opened can be open. */
  lemma {:induction false} OpenTagsWereOpened(lines: seq<string>)
    ensures forall t :: t in OpenTags(lines) ==> exists k :: 0 <= k < |lines| && t in Opened(OpenMatches(lines[k]))
    decreases |lines|
  {
    if lines != [] {
      var init := lines[..|lines| - 1];
      var last := lines[|lines| - 1];
      OpenTagsWereOpened(init);
      PushedAppends(OpenTags(init), OpenMatches(last));
      PoppedBounds(Pushed(OpenTags(init), OpenMatches(last)), CloseMatches(last));
      forall t | t in OpenTags(lines) ensures exists k :: 0 <= k < |lines| && t in Opened(OpenMatches(lines[k])) {
        assert t in multiset(OpenTags(lines));
        assert t in multiset(OpenTags(init) + Opened(OpenMatches(last)));
        if t in OpenTags(init) {
          var k :| 0 <= k < |init| && t in Opened(OpenMatches(init[k]));
          assert lines[k] == init[k];
        } else {
          assert lines[|lines| - 1] == last;
        }
      }
    }
  }

  // ---------------------------------------------------------------------------
  // Lines that open or close one tag
  // ---------------------------------------------------------------------------

  /** A tag name as the patterns capture it: one or more word characters. */
  predicate IsTagName(name: string) {
    name != [] && forall i :: 0 <= i < |name| ==> IsWordChar(name[i])
  }

  /**
   * Text that may follow the tag name inside an opening tag: no `<` or `>`,
   * not going on with the name, and not ending in `/` (which would make it self-closing).
   */
  predicate PlainAttributes(attrs: string) {
    (attrs == [] || (!IsWordChar(attrs[0]) && attrs[|attrs| - 1] != '/'))
    && '<' !in attrs && '>' !in attrs
  }

  /** A string without `<` after its first character has no opening or closing match past the first. */
  lemma {:induction false} NoMatchesWithoutLt(s: string)
    requires '<' !in s
    ensures OpenMatches(s) == [] && CloseMatches(s) == []
    decreases |s|
  {
    if |s| >= 2 {
      assert s[0] != '<';
      SliceWithout(s, 1, |s|, '<');
      NoMatchesWithoutLt(s[1..]);
    }
  }

  /** The word run of a string that starts with a word and goes on with a non-word character is that word. */
  lemma {:induction false} WordRunOfWord(s: string, w: string)
    requires |w| <= |s| && s[..|w|] == w && forall i :: 0 <= i < |w| ==> IsWordChar(w[i])
    requires |w| < |s| ==> !IsWordChar(s[|w|])
    ensures WordRun(s) == w
    decreases |w|
  {
    if w != [] {
      assert s[0] == w[0];
      assert s[1..][..|w| - 1] == w[1..];
      WordRunOfWord(s[1..], w[1..]);
      assert w == [w[0]] + w[1..];
    }
  }

  /** A tag name followed by a non-word character runs to its end. */
  lemma WordRunBeforeNonWord(name: string, rest: string)
    requires IsTagName(name) && rest != [] && !IsWordChar(rest[0])
    ensures WordRun(name + rest) == name
  {
    var s := name + rest;
    assert s[..|name|] == name;
    assert s[|name|] == rest[0];
    WordRunOfWord(s, name);
  }

  /** The text of an opening tag `<name attributes>`. */
  function OpeningTagText(name: string, attrs: string): string {
    "<" + name + attrs + ">"
  }

  /** In an opening tag only the last character is a `>`, and only the first a `<`. */
  lemma OpeningTagChars(name: string, attrs: string)
    requires IsTagName(name) && PlainAttributes(attrs)
    ensures var line := OpeningTagText(name, attrs);
      line[0] == '<' && line[1] == name[0] && line[|line| - 1] == '>'
      && '>' !in line[..|line| - 1] && '<' !in line[1..]
  {
    var line := OpeningTagText(name, attrs);
    assert line[..|line| - 1] == "<" + name + attrs;
    assert line[1..] == name + attrs + ">";
    assert '>' !in name && '<' !in name by {
      forall k | 0 <= k < |name| ensures name[k] != '>' && name[k] != '<' {
        assert IsWordChar(name[k]);
      }
    }
  }

  /** A string that starts with an opening match running to its end has just that match. */
  lemma OneOpenMatch(s: string, name: string)
    requires |s| >= 2 && s[0] == '<' && IsWordChar(s[1]) && IndexOf(s, '>') == Some(|s| - 1)
    requires WordRun(s[1..]) == name && !Contains(s, "/>")
    ensures OpenMatches(s) == [OpenMatch(name, false)]
  {
    assert s[..|s|] == s;
    assert s[|s|..] == [];
  }

  /** An opening tag does not contain `/>`. */
  lemma OpeningTagNotSelfClosing(name: string, attrs: string)
    requires IsTagName(name) && PlainAttributes(attrs)
    ensures !Contains(OpeningTagText(name, attrs), "/>")
  {
    var line := OpeningTagText(name, attrs);
    var n := |line|;
    OpeningTagChars(name, attrs);
    forall i | 0 <= i <= n - 2 ensures !OccursAt(line, "/>", i) {
      if i < n - 2 {
        assert line[..n - 1][i + 1] == line[i + 1];
        assert line[i + 1] != '>';
      } else if attrs == [] {
        assert line[n - 2] == name[|name| - 1];
      } else {
        assert line[n - 2] == attrs[|attrs| - 1];
      }
      assert line[i..i + 2][1] == line[i + 1];
      assert line[i..i + 2][0] == line[i];
    }
  }

  /** An opening tag is one match, not self-closing, with the tag's name. */
  lemma OpeningTagOpens(name: string, attrs: string)
    requires IsTagName(name) && PlainAttributes(attrs)
    ensures OpenMatches(OpeningTagText(name, attrs)) == [OpenMatch(name, false)]
  {
    OpeningTagFront(name, attrs);
    OpeningTagEnd(name, attrs);
    OneOpenMatch(OpeningTagText(name, attrs), name);
  }

  /** An opening tag starts with `<` and then the tag's name as a word. */
  lemma OpeningTagFront(name: string, attrs: string)
    requires IsTagName(name) && PlainAttributes(attrs)
    ensures var line := OpeningTagText(name, attrs);
      |line| >= 2 && line[0] == '<' && IsWordChar(line[1]) && WordRun(line[1..]) == name
  {
    OpeningTagTail(name, attrs);
    assert !IsWordChar((attrs + ">")[0]) by {
      assert !IsWordChar('>');
      assert (attrs + ">")[0] == if attrs == [] then '>' else attrs[0];
    }
    WordRunBeforeNonWord(name, attrs + ">");
  }

  /** An opening tag has its one `>` at the end, and no `/>`. */
  lemma OpeningTagEnd(name: string, attrs: string)
    requires IsTagName(name) && PlainAttributes(attrs)
    ensures var line := OpeningTagText(name, attrs);
      IndexOf(line, '>') == Some(|line| - 1) && !Contains(line, "/>")
  {
    OpeningTagChars(name, attrs);
    IndexOfLast(OpeningTagText(name, attrs), '>');
    OpeningTagNotSelfClosing(name, attrs);
  }

  /** An opening tag after its `<`. */
  lemma OpeningTagTail(name: string, attrs: string)
    ensures OpeningTagText(name, attrs)[1..] == name + (attrs + ">")
  {
    assert OpeningTagText(name, attrs) == "<" + (name + (attrs + ">"));
  }

  /** An opening tag closes nothing. */
  lemma OpeningTagClosesNothing(name: string, attrs: string)
    requires IsTagName(name) && PlainAttributes(attrs)
    ensures CloseMatches(OpeningTagText(name, attrs)) == []
  {
    var line := OpeningTagText(name, attrs);
    OpeningTagChars(name, attrs);
    NoMatchesWithoutLt(line[1..]);
    assert line[1] != '/';
  }

  /** A closing tag `</name>` closes that name and opens nothing. */
  lemma ClosingTagMatches(name: string)
    requires IsTagName(name)
    ensures OpenMatches("</" + name + ">") == []
    ensures CloseMatches("</" + name + ">") == [name]
  {
    var line := "</" + name + ">";
    assert line[2..] == name + ">";
    WordRunBeforeNonWord(name, ">");
    assert line[3 + |name|..] == [];
    assert OpenMatches(line) == OpenMatches(line[1..]);
    assert line[1..] == "/" + name + ">";
    assert '<' !in line[1..] by {
      forall k | 0 <= k < |name| ensures name[k] != '<' {
        assert IsWordChar(name[k]);
      }
    }
    NoMatchesWithoutLt(line[1..]);
  }

  /** A line holding one opening tag leaves that tag open, one level deeper. */
  lemma OpeningLineDeepens(lines: seq<string>, name: string, attrs: string)
    requires IsTagName(name) && PlainAttributes(attrs)
    ensures OpenTags(lines + [OpeningTagText(name, attrs)]) == OpenTags(lines) + [name]
    ensures Depth(lines + [OpeningTagText(name, attrs)]) == Depth(lines) + 1
  {
    var line := OpeningTagText(name, attrs);
    OpeningTagOpens(name, attrs);
    OpeningTagClosesNothing(name, attrs);
    assert (lines + [line])[..|lines|] == lines;
    assert Opened([OpenMatch(name, false)]) == [name] by {
      assert [OpenMatch(name, false)][..0] == [];
    }
    PushedAppends(OpenTags(lines), OpenMatches(line));
  }

  /** A line `</name>` removes the last open tag of that name: one level shallower when it is open. */
  lemma ClosingLineRises(lines: seq<string>, name: string)
    requires IsTagName(name)
    ensures OpenTags(lines + ["</" + name + ">"]) == RemoveLast(OpenTags(lines), name)
    ensures Depth(lines + ["</" + name + ">"]) == if name in OpenTags(lines) then Depth(lines) - 1 else Depth(lines)
  {
    var line := "</" + name + ">";
    var stack := OpenTags(lines);
    ClosingTagMatches(name);
    assert (lines + [line])[..|lines|] == lines;
    assert OpenTags(lines + [line]) == AfterLine(stack, line);
    assert Pushed(stack, []) == stack;
    assert [name][..0] == [];
    assert Popped(stack, [name]) == RemoveLast(Popped(stack, []), name);
  }

  // ---------------------------------------------------------------------------
  // The formatted text
  // ---------------------------------------------------------------------------

  /** Each line prefixed with two spaces per tag the lines before it leave open. */
  function Indented(lines: seq<string>): (r: seq<string>)
    ensures |r| == |lines|
  {
    seq(|lines|, i requires 0 <= i < |lines| => Repeat("  ", Depth(lines[..i])) + lines[i])
  }

  /** `formatHTML(html)` */
  function FormatHtml(html: string): string {
    Join(Indented(Lines(html)), "\n")
  }

  /** Joining pieces without line breaks by line breaks and splitting again gives the pieces back. */
  lemma {:induction false} SplitJoin(parts: seq<string>)
    requires parts != [] && forall i :: 0 <= i < |parts| ==> '\n' !in parts[i]
    ensures Split(Join(parts, "\n"), '\n') == parts
    decreases |parts|
  {
    if |parts| == 1 {
      SplitWithoutSeparator(parts[0], '\n');
    } else {
      var rest := Join(parts[1..], "\n");
      var s := parts[0] + "\n" + rest;
      assert IndexOf(s, '\n') == Some(|parts[0]|) by {
        assert s[|parts[0]|] == '\n';
        assert s[..|parts[0]|] == parts[0];
      }
      assert s[|parts[0]| + 1..] == rest;
      SplitJoin(parts[1..]);
    }
  }

  /**
   * The formatted text, split at its line breaks, is the list of trimmed
   * non-blank lines, each indented by the depth the lines before it reach.
   */
  lemma FormattedLines(html: string)
    requires Lines(html) != []
    ensures Split(FormatHtml(html), '\n') == Indented(Lines(html))
  {
    var lines := Lines(html);
    LinesShape(html);
    forall i | 0 <= i < |lines| ensures '\n' !in Indented(lines)[i] {
      assert lines[i] in lines;
      assert Clean(lines[i]);
      RepeatSpaces(Depth(lines[..i]));
    }
    SplitJoin(Indented(lines));
  }

  /** Repeated spaces hold no line break. */
  lemma {:induction false} RepeatSpaces(n: nat)
    ensures '\n' !in Repeat("  ", n)
  {
    if n > 0 {
      RepeatSpaces(n - 1);
    }
  }

  /** A string that starts with `<` and ends with `>` is its own trim. */
  lemma TrimOfTag(s: string)
    requires s != [] && s[0] == '<' && s[|s| - 1] == '>'
    ensures Trim(s) == s
  {
    assert TrimStart(s) == s;
    assert TrimEnd(s) == s;
  }

  /** A head tag without `><` is kept whole and broken from a following tag. */
  lemma BreaksAfterHead(head: string, rest: string)
    requires head != [] && head[|head| - 1] == '>' && Unbroken(head)
    requires rest != [] && rest[0] == '<'
    ensures Breaks(head + rest) == head + "\n" + Breaks(rest)
  {
    BreaksAppend(head, rest);
    BreaksKeepUnbroken(head);
  }

  /** Splitting at the first line break. */
  lemma SplitAfter(a: string, b: string)
    requires '\n' !in a
    ensures Split(a + "\n" + b, '\n') == [a] + Split(b, '\n')
  {
    var s := a + "\n" + b;
    assert s[|a|] == '\n';
    assert s[..|a|] == a;
    assert IndexOf(s, '\n') == Some(|a|);
    assert s[|a| + 1..] == b;
  }

  /** The first piece of a string starting with `<` starts with `<`. */
  lemma FirstPieceTag(t: string)
    requires t != [] && t[0] == '<'
    ensures Split(t, '\n')[0] != [] && Split(t, '\n')[0][0] == '<'
  {
    match IndexOf(t, '\n')
    case None =>
    case Some(i) => assert i > 0;
  }

  /** The lines of markup that starts with a clean tag and goes on with another tag: that tag, then at least one more line. */
  lemma LinesAfterHead(head: string, rest: string)
    requires head != [] && head[0] == '<' && head[|head| - 1] == '>' && '\n' !in head && Unbroken(head)
    requires rest != [] && rest[0] == '<'
    ensures |Lines(head + rest)| >= 2 && Lines(head + rest)[0] == head
  {
    BreaksAfterHead(head, rest);
    var tail := Breaks(rest);
    SplitAfter(head, tail);
    var tailPieces := Split(tail, '\n');
    var pieces := [head] + tailPieces;
    TrimOfTag(head);
    var trimmed := TrimAll(pieces);
    assert trimmed[0] == head;
    assert trimmed[1..] == TrimAll(tailPieces);
    assert NonBlank(trimmed) == [head] + NonBlank(trimmed[1..]);
    FirstPieceTag(tail);
    TrimKeepsTag(tailPieces[0]);
    assert NonBlank(trimmed[1..]) != [];
  }

  /**
   * Markup that starts with a tag without line breaks or `><` and goes on with
   * another tag formats with that tag alone on its first line, unindented.
   */
  lemma FirstLine(head: string, rest: string)
    requires head != [] && head[0] == '<' && head[|head| - 1] == '>' && '\n' !in head && Unbroken(head)
    requires rest != [] && rest[0] == '<'
    ensures Lines(head + rest) != [] && Lines(head + rest)[0] == head
    ensures StartsWith(FormatHtml(head + rest), head + "\n")
  {
    LinesAfterHead(head, rest);
    var lines := Lines(head + rest);
    var ind := Indented(lines);
    assert lines[..0] == [];
    assert ind[0] == head;
    assert Join(ind, "\n") == ind[0] + "\n" + Join(ind[1..], "\n");
  }

  /** A piece that starts with `<` trims to a non-empty line. */
  lemma TrimKeepsTag(p: string)
    requires p != [] && p[0] == '<'
    ensures Trim(p) != []
  {
    assert !AllWhite(p) by {
      assert !IsWhite(p[0]);
    }
    TrimEmptyIffWhite(p);
  }
}
