/**
 * The documentation-comment templates of XmlSyntaxFactory.
 *
 * Every overload of the source builds a template string and hands it to a
 * C# trivia parser; the model's result is that template string. The text is
 * described by its lines: `Lines` renders a sequence of lines, each followed
 * by the line terminator, and `SplitLines` recovers them.
 */
module XmlSyntaxFactory {

  /** The line terminator written after every line (Environment.NewLine). */
  const NewLine: string := "\n"

  /** One (paramName, paramText) pair of a parameter documentation line. */
  datatype ParamDoc = ParamDoc(paramName: string, paramText: string)

  // ---------------------------------------------------------------------------
  // Line structure
  // ---------------------------------------------------------------------------

  /** The text made of the given lines, each followed by NewLine, as AppendLine builds it. */
  function Lines(ls: seq<string>): string
  {
    if ls == [] then "" else ls[0] + NewLine + Lines(ls[1..])
  }

  predicate NoNewline(s: string)
  {
    forall i :: 0 <= i < |s| ==> s[i] != '\n'
  }

  /** Index of the first line terminator in `s`, or |s| when there is none. */
  function LineEnd(s: string): (i: nat)
    ensures i <= |s|
    ensures forall j :: 0 <= j < i ==> s[j] != '\n'
    ensures i < |s| ==> s[i] == '\n'
  {
    if s == [] || s[0] == '\n' then 0 else 1 + LineEnd(s[1..])
  }

  /** The lines of a text: each terminated by NewLine, a trailing unterminated rest counting as one more line. */
  function SplitLines(s: string): seq<string>
    decreases |s|
  {
    if s == [] then []
    else
      var i := LineEnd(s);
      if i == |s| then [s] else [s[..i]] + SplitLines(s[i + 1..])
  }

  lemma {:induction false} LinesAppend(a: seq<string>, b: seq<string>)
    ensures Lines(a + b) == Lines(a) + Lines(b)
  {
    if a == [] {
      assert a + b == b;
    } else {
      assert (a + b)[1..] == a[1..] + b;
      LinesAppend(a[1..], b);
    }
  }

  lemma LinesSnoc(a: seq<string>, l: string)
    ensures Lines(a + [l]) == Lines(a) + l + NewLine
  {
    LinesAppend(a, [l]);
    assert [l][1..] == [];
  }

  /** Splitting a rendered text gives back its lines, provided no line holds a terminator itself. */
  lemma {:induction false} SplitLinesOfLines(ls: seq<string>)
    requires forall k :: 0 <= k < |ls| ==> NoNewline(ls[k])
    ensures SplitLines(Lines(ls)) == ls
  {
    if ls != [] {
      var l, rest := ls[0], Lines(ls[1..]);
      var s := Lines(ls);
      assert s == l + "\n" + rest;
      assert s[|l|] == '\n';
      var i := LineEnd(s);
      assert i == |l|;
      assert s[..i] == l;
      assert s[i + 1..] == rest;
      SplitLinesOfLines(ls[1..]);
    }
  }

  // ---------------------------------------------------------------------------
  // Line shapes
  // ---------------------------------------------------------------------------

  /** The three lines of a summary element around `text`. */
  function SummaryLines(text: string): seq<string>
  {
    ["/// <summary>", "/// " + text, "/// </summary>"]
  }

  function ParamLine(p: ParamDoc): string
  {
    "/// <param name=\"" + p.paramName + "\">" + p.paramText + "</param>"
  }

  /** One parameter line per pair, in the given order. */
  function ParamLines(ps: seq<ParamDoc>): seq<string>
  {
    seq(|ps|, i requires 0 <= i < |ps| => ParamLine(ps[i]))
  }

  /** The well-formed returns line written by the parameters-and-return overload. */
  function ReturnsLine(text: string): string
  {
    "/// <returns>" + text + "</returns>"
  }

  /** The returns line of the summary-and-return overload, whose closing tag lacks the slash. */
  function MalformedReturnsLine(text: string): string
  {
    "/// <returns>" + text + "///<returns>"
  }

  predicate IsDocLine(l: string)
  {
    |l| >= 4 && l[..4] == "/// "
  }

  predicate ParamsHaveNoNewline(ps: seq<ParamDoc>)
  {
    forall k :: 0 <= k < |ps| ==> NoNewline(ps[k].paramName) && NoNewline(ps[k].paramText)
  }

  lemma ParamLinesSnoc(ps: seq<ParamDoc>, i: nat)
    requires i < |ps|
    ensures ParamLines(ps[..i + 1]) == ParamLines(ps[..i]) + [ParamLine(ps[i])]
  {
  }

  lemma NoNewlineConcat(a: string, b: string)
    requires NoNewline(a) && NoNewline(b)
    ensures NoNewline(a + b)
  {
    forall i | 0 <= i < |a + b| ensures (a + b)[i] != '\n' {
      if i >= |a| { assert (a + b)[i] == b[i - |a|]; }
    }
  }

  lemma ParamLineNoNewline(p: ParamDoc)
    requires NoNewline(p.paramName) && NoNewline(p.paramText)
    ensures NoNewline(ParamLine(p))
  {
    NoNewlineConcat("/// <param name=\"", p.paramName);
    NoNewlineConcat("/// <param name=\"" + p.paramName, "\">");
    NoNewlineConcat("/// <param name=\"" + p.paramName + "\">", p.paramText);
    NoNewlineConcat("/// <param name=\"" + p.paramName + "\">" + p.paramText, "</param>");
  }

  // ---------------------------------------------------------------------------
  // string.Format with one argument, and the cref escape
  // ---------------------------------------------------------------------------

  /**
   * string.Format(CultureInfo.InvariantCulture, template, arg) for templates
   * whose only format item is {0}: every occurrence of "{0}" becomes `arg`,
   * every other character is copied.
   */
  function Format(template: string, arg: string): string
    decreases |template|
  {
    if |template| < 3 then template
    else if template[..3] == "{0}" then arg + Format(template[3..], arg)
    else [template[0]] + Format(template[1..], arg)
  }

  /** Text without braces: text that string.Format copies unchanged. */
  predicate NoBrace(s: string)
  {
    forall i :: 0 <= i < |s| ==> s[i] != '{' && s[i] != '}'
  }

  /** A character other than an opening brace is copied by Format. */
  lemma FormatLiteralChar(c: char, t: string, arg: string)
    requires c != '{'
    ensures Format([c] + t, arg) == [c] + Format(t, arg)
  {
    var s := [c] + t;
    assert s[1..] == t;
    if |s| >= 3 {
      assert s[..3][0] == c;
    }
  }

  /** A prefix without braces is copied verbatim by Format. */
  lemma {:induction false} FormatLiteralPrefix(p: string, t: string, arg: string)
    requires NoBrace(p)
    ensures Format(p + t, arg) == p + Format(t, arg)
  {
    if p != [] {
      assert p + t == [p[0]] + (p[1..] + t);
      assert p[0] != '{';
      FormatLiteralChar(p[0], p[1..] + t, arg);
      assert NoBrace(p[1..]) by {
        forall i | 0 <= i < |p[1..]| ensures p[1..][i] != '{' && p[1..][i] != '}' { assert p[1..][i] == p[i + 1]; }
      }
      FormatLiteralPrefix(p[1..], t, arg);
      assert [p[0]] + (p[1..] + Format(t, arg)) == p + Format(t, arg);
    } else {
      assert p + t == t;
    }
  }

  /** A template holding exactly one placeholder between text without braces gets `arg` in its place. */
  lemma FormatSinglePlaceholder(p: string, q: string, arg: string)
    requires NoBrace(p) && NoBrace(q)
    ensures Format(p + "{0}" + q, arg) == p + arg + q
  {
    assert p + "{0}" + q == p + ("{0}" + q);
    FormatLiteralPrefix(p, "{0}" + q, arg);
    var t := "{0}" + q;
    assert t[..3] == "{0}" && t[3..] == q;
    FormatLiteralPrefix(q, [], arg);
    assert q + [] == q;
  }

  lemma {:induction false} FormatNoNewline(template: string, arg: string)
    requires NoNewline(template) && NoNewline(arg)
    ensures NoNewline(Format(template, arg))
    decreases |template|
  {
    if |template| >= 3 {
      if template[..3] == "{0}" {
        FormatNoNewline(template[3..], arg);
        NoNewlineConcat(arg, Format(template[3..], arg));
      } else {
        FormatNoNewline(template[1..], arg);
        NoNewlineConcat([template[0]], Format(template[1..], arg));
      }
    }
  }

  /** string.Replace of one character by another. */
  function ReplaceChar(s: string, from: char, to: char): (r: string)
    ensures |r| == |s|
    ensures forall i :: 0 <= i < |s| ==> r[i] == (if s[i] == from then to else s[i])
  {
    if s == [] then [] else [if s[0] == from then to else s[0]] + ReplaceChar(s[1..], from, to)
  }

  /** The cref escape: Replace("<", "{") followed by Replace(">", "}"). */
  function EscapeCref(target: string): (r: string)
    ensures |r| == |target|
    ensures forall i :: 0 <= i < |target| ==>
      r[i] == (if target[i] == '<' then '{' else if target[i] == '>' then '}' else target[i])
    ensures forall i :: 0 <= i < |r| ==> r[i] != '<' && r[i] != '>'
  {
    ReplaceChar(ReplaceChar(target, '<', '{'), '>', '}')
  }

  /** The escape is lossy: a target that already holds braces cannot be told apart. */
  lemma EscapeCrefIsNotInjective()
    ensures EscapeCref("List<T>") == EscapeCref("List{T}")
  {
    var a, b := EscapeCref("List<T>"), EscapeCref("List{T}");
    assert |a| == |b| == 7;
    forall i | 0 <= i < 7 ensures a[i] == b[i] { }
  }

  /** The cross-reference element substituted into a see-also summary. */
  function SeeCref(seeAlsoText: string): string
  {
    "<see cref=\"" + EscapeCref(seeAlsoText) + "\" />"
  }

  // ---------------------------------------------------------------------------
  // The overloads
  // ---------------------------------------------------------------------------

  /** The inherit-doc marker, with its own line terminator. */
  const InheritdocSyntax: string := "/// <inheritdoc />" + NewLine

  /** GenerateSummaryComment(summaryText): the three summary lines, each terminated. */
  function GenerateSummaryComment(summaryText: string): (r: string)
    ensures r == Lines(SummaryLines(summaryText))
  {
    SummaryLinesText(summaryText);
    "/// <summary>" + NewLine +
    "/// " + summaryText + NewLine +
    "/// </summary>" + NewLine
  }

  /** GenerateSummaryComment(summaryText, returnValueText): the summary lines, then the returns line. */
  function GenerateSummaryReturnsComment(summaryText: string, returnValueText: string): (r: string)
    ensures r == Lines(SummaryLines(summaryText) + [MalformedReturnsLine(returnValueText)])
  {
    SummaryLinesText(summaryText);
    LinesSnoc(SummaryLines(summaryText), MalformedReturnsLine(returnValueText));
    "/// <summary>" + NewLine +
    "/// " + summaryText + NewLine +
    "/// </summary>" + NewLine +
    "/// <returns>" + returnValueText + "///<returns>" + NewLine
  }

  /**
   * GenerateSummarySeeAlsoComment(summaryText, seeAlsoText): the summary lines
   * of the text formatted with the escaped cross-reference.
   */
  function GenerateSummarySeeAlsoComment(summaryText: string, seeAlsoText: string): (r: string)
    ensures r == Lines(SummaryLines(Format(summaryText, SeeCref(seeAlsoText))))
  {
    var text := Format(summaryText, "<see cref=\"" + EscapeCref(seeAlsoText) + "\" />");
    SummaryLinesText(text);
    "/// <summary>" + NewLine +
    "/// " + text + NewLine +
    "/// </summary>" + NewLine
  }

  /** GenerateSummaryComment(summaryText, parameters) */
  method GenerateSummaryParamsComment(summaryText: string, parameters: seq<ParamDoc>) returns (r: string)
    ensures r == Lines(SummaryLines(summaryText) + ParamLines(parameters))
  {
    var sb := "/// <summary>";
    sb := sb + NewLine;
    sb := sb + "/// " + summaryText + NewLine;
    sb := sb + "/// </summary>" + NewLine;
    SummaryLinesText(summaryText);
    assert SummaryLines(summaryText) + ParamLines(parameters[..0]) == SummaryLines(summaryText);
    for i := 0 to |parameters|
      invariant sb == Lines(SummaryLines(summaryText) + ParamLines(parameters[..i]))
    {
      ParamLinesSnoc(parameters, i);
      assert SummaryLines(summaryText) + ParamLines(parameters[..i + 1])
          == (SummaryLines(summaryText) + ParamLines(parameters[..i])) + [ParamLine(parameters[i])];
      LinesSnoc(SummaryLines(summaryText) + ParamLines(parameters[..i]), ParamLine(parameters[i]));
      sb := sb + "/// <param name=\"" + parameters[i].paramName + "\">" + parameters[i].paramText + "</param>" + NewLine;
    }
    assert parameters[..|parameters|] == parameters;
    r := sb;
  }

  /** GenerateSummaryComment(summaryText, parameters, returnValueText) */
  method GenerateSummaryParamsReturnsComment(summaryText: string, parameters: seq<ParamDoc>, returnValueText: string)
    returns (r: string)
    ensures r == Lines(SummaryLines(summaryText) + ParamLines(parameters) + [ReturnsLine(returnValueText)])
  {
    var sb := "/// <summary>";
    sb := sb + NewLine;
    sb := sb + "/// " + summaryText + NewLine;
    sb := sb + "/// </summary>" + NewLine;
    SummaryLinesText(summaryText);
    assert SummaryLines(summaryText) + ParamLines(parameters[..0]) == SummaryLines(summaryText);
    for i := 0 to |parameters|
      invariant sb == Lines(SummaryLines(summaryText) + ParamLines(parameters[..i]))
    {
      ParamLinesSnoc(parameters, i);
      assert SummaryLines(summaryText) + ParamLines(parameters[..i + 1])
          == (SummaryLines(summaryText) + ParamLines(parameters[..i])) + [ParamLine(parameters[i])];
      LinesSnoc(SummaryLines(summaryText) + ParamLines(parameters[..i]), ParamLine(parameters[i]));
      sb := sb + "/// <param name=\"" + parameters[i].paramName + "\">" + parameters[i].paramText + "</param>" + NewLine;
    }
    assert parameters[..|parameters|] == parameters;
    LinesSnoc(SummaryLines(summaryText) + ParamLines(parameters), ReturnsLine(returnValueText));
    sb := sb + "/// <returns>" + returnValueText + "</returns>" + NewLine;
    r := sb;
  }

  /** GenerateSummarySeeAlsoComment(summaryText, seeAlsoText, parameters) */
  method GenerateSummarySeeAlsoParamsComment(summaryText: string, seeAlsoText: string, parameters: seq<ParamDoc>)
    returns (r: string)
    ensures r == Lines(SummaryLines(Format(summaryText, SeeCref(seeAlsoText))) + ParamLines(parameters))
  {
    var text := Format(summaryText, "<see cref=\"" + EscapeCref(seeAlsoText) + "\" />");
    var sb := "/// <summary>";
    sb := sb + NewLine;
    sb := sb + "/// " + text + NewLine;
    sb := sb + "/// </summary>" + NewLine;
    SummaryLinesText(text);
    assert SummaryLines(text) + ParamLines(parameters[..0]) == SummaryLines(text);
    for i := 0 to |parameters|
      invariant sb == Lines(SummaryLines(text) + ParamLines(parameters[..i]))
    {
      ParamLinesSnoc(parameters, i);
      assert SummaryLines(text) + ParamLines(parameters[..i + 1])
          == (SummaryLines(text) + ParamLines(parameters[..i])) + [ParamLine(parameters[i])];
      LinesSnoc(SummaryLines(text) + ParamLines(parameters[..i]), ParamLine(parameters[i]));
      sb := sb + "/// <param name=\"" + parameters[i].paramName + "\">" + parameters[i].paramText + "</param>" + NewLine;
    }
    assert parameters[..|parameters|] == parameters;
    r := sb;
  }

  /** The (name, formatted text) pairs derived from a method's parameter names, in order. */
  function MethodParamDocs(parameterFormat: string, parameterNames: seq<string>): seq<ParamDoc>
  {
    seq(|parameterNames|, i requires 0 <= i < |parameterNames| =>
      ParamDoc(parameterNames[i], Format(parameterFormat, parameterNames[i])))
  }

  /** GenerateSummaryComment(summaryText, parameterFormat, entity); the method entity is its parameter names. */
  method GenerateSummaryMethodComment(summaryText: string, parameterFormat: string, parameterNames: seq<string>)
    returns (r: string)
    ensures r == Lines(SummaryLines(summaryText) + ParamLines(MethodParamDocs(parameterFormat, parameterNames)))
  {
    var parameters := MethodParamDocs(parameterFormat, parameterNames);
    r := GenerateSummaryParamsComment(summaryText, parameters);
  }

  // ---------------------------------------------------------------------------
  // Properties of the templates
  // ---------------------------------------------------------------------------

  lemma SummaryLinesText(text: string)
    ensures Lines(SummaryLines(text)) ==
      "/// <summary>" + NewLine + "/// " + text + NewLine + "/// </summary>" + NewLine
  {
    var ls := SummaryLines(text);
    assert ls[1..] == ["/// " + text, "/// </summary>"];
    assert ls[1..][1..] == ["/// </summary>"];
    assert ls[1..][1..][1..] == [];
    assert Lines(ls[1..][1..]) == "/// </summary>" + NewLine;
    assert Lines(ls[1..]) == "/// " + text + NewLine + "/// </summary>" + NewLine;
  }

  /** The two-argument see-also comment is the summary-only comment of the formatted summary. */
  lemma SeeAlsoIsSummaryOfFormatted(summaryText: string, seeAlsoText: string)
    ensures GenerateSummarySeeAlsoComment(summaryText, seeAlsoText)
         == GenerateSummaryComment(Format(summaryText, SeeCref(seeAlsoText)))
  {
  }

  /** The inherit-doc marker is exactly one terminated line, so it never shares a line with the declaration. */
  lemma InheritdocIsOneLine()
    ensures InheritdocSyntax == Lines(["/// <inheritdoc />"])
    ensures SplitLines(InheritdocSyntax) == ["/// <inheritdoc />"]
    ensures InheritdocSyntax[|InheritdocSyntax| - |NewLine|..] == NewLine
  {
    assert ["/// <inheritdoc />"][1..] == [];
    SplitLinesOfLines(["/// <inheritdoc />"]);
  }

  /** The summary-only comment is the three summary lines, each terminated. */
  lemma SummaryCommentLines(summaryText: string)
    ensures GenerateSummaryComment(summaryText) == Lines(SummaryLines(summaryText))
    ensures NoNewline(summaryText) ==>
      SplitLines(GenerateSummaryComment(summaryText)) == ["/// <summary>", "/// " + summaryText, "/// </summary>"]
  {
    SummaryLinesText(summaryText);
    if NoNewline(summaryText) {
      NoNewlineConcat("/// ", summaryText);
      SplitLinesOfLines(SummaryLines(summaryText));
    }
  }

  /** The summary-and-return comment has four lines; the fourth keeps the source's "///<returns>" closing tag. */
  lemma SummaryReturnsCommentLines(summaryText: string, returnValueText: string)
    ensures GenerateSummaryReturnsComment(summaryText, returnValueText)
         == Lines(SummaryLines(summaryText) + [MalformedReturnsLine(returnValueText)])
    ensures NoNewline(summaryText) && NoNewline(returnValueText) ==>
      SplitLines(GenerateSummaryReturnsComment(summaryText, returnValueText))
        == SummaryLines(summaryText) + ["/// <returns>" + returnValueText + "///<returns>"]
  {
    SummaryLinesText(summaryText);
    LinesSnoc(SummaryLines(summaryText), MalformedReturnsLine(returnValueText));
    if NoNewline(summaryText) && NoNewline(returnValueText) {
      NoNewlineConcat("/// ", summaryText);
      NoNewlineConcat("/// <returns>", returnValueText);
      NoNewlineConcat("/// <returns>" + returnValueText, "///<returns>");
      var ls := SummaryLines(summaryText) + [MalformedReturnsLine(returnValueText)];
      assert forall k :: 0 <= k < |ls| ==> NoNewline(ls[k]);
      SplitLinesOfLines(ls);
    }
  }

  /** The two return-carrying overloads disagree even without parameters: only one closes the tag correctly. */
  lemma ReturnsOverloadsDiffer(summaryText: string, returnValueText: string)
    ensures GenerateSummaryReturnsComment(summaryText, returnValueText)
         != Lines(SummaryLines(summaryText) + ParamLines([]) + [ReturnsLine(returnValueText)])
  {
    SummaryReturnsCommentLines(summaryText, returnValueText);
    assert SummaryLines(summaryText) + ParamLines([]) == SummaryLines(summaryText);
    LinesSnoc(SummaryLines(summaryText), ReturnsLine(returnValueText));
    LinesSnoc(SummaryLines(summaryText), MalformedReturnsLine(returnValueText));
  }

  /**
   * The parameter overloads: three summary lines, then one line per pair in
   * the given order, every line a documentation-comment line.
   */
  lemma {:induction false} ParamsCommentLines(summaryText: string, parameters: seq<ParamDoc>)
    requires NoNewline(summaryText) && ParamsHaveNoNewline(parameters)
    ensures var ls := SplitLines(Lines(SummaryLines(summaryText) + ParamLines(parameters)));
      && |ls| == 3 + |parameters|
      && ls[..3] == SummaryLines(summaryText)
      && (forall k :: 0 <= k < |parameters| ==> ls[3 + k] == ParamLine(parameters[k]))
      && (forall k :: 0 <= k < |ls| ==> IsDocLine(ls[k]))
  {
    var ls := SummaryLines(summaryText) + ParamLines(parameters);
    NoNewlineConcat("/// ", summaryText);
    forall k | 0 <= k < |ls| ensures NoNewline(ls[k]) {
      if k >= 3 { ParamLineNoNewline(parameters[k - 3]); }
    }
    SplitLinesOfLines(ls);
    forall k | 0 <= k < |ls| ensures IsDocLine(ls[k]) {
      assert ls[k][..4] == "/// ";
    }
  }

  /** With no parameters, the parameter overload produces the summary-only text. */
  lemma EmptyParamsIsSummaryOnly(summaryText: string)
    ensures Lines(SummaryLines(summaryText) + ParamLines([])) == GenerateSummaryComment(summaryText)
  {
    assert SummaryLines(summaryText) + ParamLines([]) == SummaryLines(summaryText);
    SummaryLinesText(summaryText);
  }

  /** With no parameters, the see-also parameter overload produces the two-argument see-also text. */
  lemma EmptyParamsIsSeeAlsoOnly(summaryText: string, seeAlsoText: string)
    ensures Lines(SummaryLines(Format(summaryText, SeeCref(seeAlsoText))) + ParamLines([]))
         == GenerateSummarySeeAlsoComment(summaryText, seeAlsoText)
  {
    EmptyParamsIsSummaryOnly(Format(summaryText, SeeCref(seeAlsoText)));
  }

  /** The parameters-and-return overload is the parameter overload followed by exactly one returns line. */
  lemma ReturnsLineIsLast(summaryText: string, parameters: seq<ParamDoc>, returnValueText: string)
    ensures Lines(SummaryLines(summaryText) + ParamLines(parameters) + [ReturnsLine(returnValueText)])
         == Lines(SummaryLines(summaryText) + ParamLines(parameters)) + ReturnsLine(returnValueText) + NewLine
    ensures NoNewline(summaryText) && ParamsHaveNoNewline(parameters) && NoNewline(returnValueText) ==>
      var ls := SplitLines(Lines(SummaryLines(summaryText) + ParamLines(parameters) + [ReturnsLine(returnValueText)]));
      && |ls| == 4 + |parameters|
      && ls[..3 + |parameters|] == SummaryLines(summaryText) + ParamLines(parameters)
      && ls[3 + |parameters|] == "/// <returns>" + returnValueText + "</returns>"
  {
    var head := SummaryLines(summaryText) + ParamLines(parameters);
    LinesSnoc(head, ReturnsLine(returnValueText));
    if NoNewline(summaryText) && ParamsHaveNoNewline(parameters) && NoNewline(returnValueText) {
      NoNewlineConcat("/// ", summaryText);
      NoNewlineConcat("/// <returns>", returnValueText);
      NoNewlineConcat("/// <returns>" + returnValueText, "</returns>");
      var ls := head + [ReturnsLine(returnValueText)];
      forall k | 0 <= k < |ls| ensures NoNewline(ls[k]) {
        if 3 <= k < 3 + |parameters| { ParamLineNoNewline(parameters[k - 3]); }
      }
      SplitLinesOfLines(ls);
      assert ls[..3 + |parameters|] == head;
    }
  }

  /**
   * The method-based overload: one parameter line per method parameter, in
   * the method's order, naming the parameter and carrying the parameter
   * format applied to that name; the summary text is not formatted.
   */
  lemma MethodCommentLines(summaryText: string, parameterFormat: string, parameterNames: seq<string>)
    requires NoNewline(summaryText) && NoNewline(parameterFormat)
    requires forall k :: 0 <= k < |parameterNames| ==> NoNewline(parameterNames[k])
    ensures var ls := SplitLines(Lines(SummaryLines(summaryText) + ParamLines(MethodParamDocs(parameterFormat, parameterNames))));
      && |ls| == 3 + |parameterNames|
      && ls[1] == "/// " + summaryText
      && forall k :: 0 <= k < |parameterNames| ==>
           ls[3 + k] == "/// <param name=\"" + parameterNames[k] + "\">" + Format(parameterFormat, parameterNames[k]) + "</param>"
  {
    var ps := MethodParamDocs(parameterFormat, parameterNames);
    forall k | 0 <= k < |ps| ensures NoNewline(ps[k].paramName) && NoNewline(ps[k].paramText) {
      FormatNoNewline(parameterFormat, parameterNames[k]);
    }
    ParamsCommentLines(summaryText, ps);
    var ls := SplitLines(Lines(SummaryLines(summaryText) + ParamLines(ps)));
    assert ls[1] == ls[..3][1];
    forall k | 0 <= k < |parameterNames|
      ensures ls[3 + k] == "/// <param name=\"" + parameterNames[k] + "\">" + Format(parameterFormat, parameterNames[k]) + "</param>"
    {
      assert ps[k] == ParamDoc(parameterNames[k], Format(parameterFormat, parameterNames[k]));
    }
  }

  /**
   * A see-also summary with one placeholder between brace-free text: the
   * placeholder becomes the cref element around the escaped target.
   */
  lemma SeeAlsoSubstitutesEscapedCref(prefix: string, suffix: string, seeAlsoText: string)
    requires NoBrace(prefix) && NoBrace(suffix)
    ensures GenerateSummarySeeAlsoComment(prefix + "{0}" + suffix, seeAlsoText)
         == Lines(SummaryLines(prefix + SeeCref(seeAlsoText) + suffix))
  {
    var cref := SeeCref(seeAlsoText);
    FormatSinglePlaceholder(prefix, suffix, cref);
    SeeAlsoIsSummaryOfFormatted(prefix + "{0}" + suffix, seeAlsoText);
    SummaryLinesText(prefix + cref + suffix);
  }

  // The lemmas below fix their arguments and expected text by `requires`
  // rather than writing the literals in the call: with literal arguments the
  // verifier unfolds Format and EscapeCref character by character and runs
  // out of resource.

  lemma EscapeGenericName(seeAlsoText: string)
    requires seeAlsoText == "List<Int32>"
    ensures SeeCref(seeAlsoText) == "<see cref=\"List{Int32}\" />"
  {
    var e := EscapeCref(seeAlsoText);
    assert e == "List{Int32}" by {
      assert |e| == 11;
      forall i | 0 <= i < 11 ensures e[i] == "List{Int32}"[i] { }
    }
  }

  lemma FormatSeePlaceholder(summaryText: string, arg: string)
    requires summaryText == "See {0}"
    ensures Format(summaryText, arg) == "See " + arg
  {
    assert NoBrace("See ") && NoBrace("");
    FormatSinglePlaceholder("See ", "", arg);
    assert "See " + "{0}" + "" == summaryText;
  }

  /** A generic type name is written with braces inside the cross-reference. */
  lemma SeeAlsoGenericTarget(summaryText: string, seeAlsoText: string, rendered: string)
    requires summaryText == "See {0}" && seeAlsoText == "List<Int32>"
    requires rendered == "See <see cref=\"List{Int32}\" />"
    ensures GenerateSummarySeeAlsoComment(summaryText, seeAlsoText) == GenerateSummaryComment(rendered)
  {
    GenericTargetText(summaryText, seeAlsoText, rendered);
    SeeAlsoOfFormatted(summaryText, seeAlsoText, rendered);
  }

  lemma GenericTargetText(summaryText: string, seeAlsoText: string, rendered: string)
    requires summaryText == "See {0}" && seeAlsoText == "List<Int32>"
    requires rendered == "See <see cref=\"List{Int32}\" />"
    ensures Format(summaryText, SeeCref(seeAlsoText)) == rendered
  {
    EscapeGenericName(seeAlsoText);
    FormatSeePlaceholder(summaryText, SeeCref(seeAlsoText));
  }

  lemma SeeAlsoOfFormatted(summaryText: string, seeAlsoText: string, rendered: string)
    requires Format(summaryText, SeeCref(seeAlsoText)) == rendered
    ensures GenerateSummarySeeAlsoComment(summaryText, seeAlsoText) == GenerateSummaryComment(rendered)
  {
    SeeAlsoIsSummaryOfFormatted(summaryText, seeAlsoText);
  }

  /**
   * The texts are inserted unchanged, so a summary text holding a line
   * terminator yields a line without the documentation-comment prefix.
   */
  lemma MultiLineSummaryBreaksPrefix(summaryText: string)
    requires summaryText == "a\nb"
    ensures SplitLines(GenerateSummaryComment(summaryText)) == ["/// <summary>", "/// a", "b", "/// </summary>"]
    ensures !IsDocLine("b")
  {
    SummaryLinesText(summaryText);
    var ls := ["/// <summary>", "/// a", "b", "/// </summary>"];
    assert Lines(SummaryLines(summaryText)) == Lines(ls) by {
      assert Lines(ls[3..]) == "/// </summary>" + NewLine;
      assert Lines(ls[2..]) == "b" + NewLine + "/// </summary>" + NewLine;
      assert Lines(ls[1..]) == "/// a" + NewLine + "b" + NewLine + "/// </summary>" + NewLine;
      assert Lines(ls) == "/// <summary>" + NewLine + "/// a" + NewLine + "b" + NewLine + "/// </summary>" + NewLine;
      assert "/// " + summaryText == "/// a" + NewLine + "b";
    }
    SummaryCommentLines(summaryText);
    assert NoNewline(ls[0]) && NoNewline(ls[1]) && NoNewline(ls[2]) && NoNewline(ls[3]) by {
      assert ls[0] == "/// <summary>" && ls[1] == "/// a" && ls[2] == "b" && ls[3] == "/// </summary>";
    }
    SplitLinesOfLines(ls);
  }
}
