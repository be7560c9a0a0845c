/** The chatbot's configuration constants: the interviewee's name in the
    two spellings the prompts use, and the normalisation every prompt
    template goes through before it is used. */
module Config {
  import opened Strings

  /** The interviewee's configured name. */
  const Name := "pathas"

  /** `toUpperCase` on one character, for the ASCII letters. */
  function UpperChar(c: char): char {
    if 'a' <= c <= 'z' then (c as int - 32) as char else c
  }

  /** `toUpperCase` on a string, character by character. */
  function Upper(s: string): string {
    Map(UpperChar, s)
  }

  /** `name.slice(0, 1).toUpperCase() + name.slice(1)`: the name with its
      first character upper-cased and the rest untouched. */
  function PascalCase(name: string): (r: string)
    ensures |r| == |name|
    ensures |name| > 0 ==> r[0] == UpperChar(name[0]) && r[1..] == name[1..]
    ensures |name| > 0 && 'a' <= name[0] <= 'z' ==> 'A' <= r[0] <= 'Z'
  {
    var head := if |name| == 0 then "" else name[..1];
    Upper(head) + name[|head|..]
  }

  const PascalName := PascalCase(Name)

  lemma PascalNameIsCapitalised()
    ensures PascalName == "Pathas"
  {
    assert Upper("p") == "P";
  }

  /** The `'\n'`-separated segments of `s` (`s.split('\n')`). */
  function Lines(s: string): seq<string> {
    SplitOn(s, "\n")
  }

  /** The reference statement of what a stripped prompt holds: the lines
      that are not whitespace-only, each trimmed, in their original
      order. */
  function TrimmedLines(prompt: string): seq<string> {
    Map(Trim, Filter(NotBlank, Lines(prompt)))
  }

  /** `stripPromptIndent`: split into lines, trim each, drop the empty
      ones, re-join with `'\n'`. The result is empty exactly when the
      prompt is whitespace-only; otherwise it starts and ends with a
      non-whitespace character (so never with `'\n'`). */
  function StripPromptIndent(prompt: string): (r: string)
    ensures r == "" <==> Blank(prompt)
    ensures r != "" ==> !IsWhitespace(r[0]) && !IsWhitespace(r[|r| - 1])
  {
    StripFacts(prompt);
    Join(Filter(NonEmpty, Map(Trim, Lines(prompt))), "\n")
  }

  /** The two facts `StripPromptIndent` promises, stated over its body so
      that the function's own proof stays small. */
  lemma StripFacts(prompt: string)
    ensures var r := Join(Filter(NonEmpty, Map(Trim, Lines(prompt))), "\n");
      && (r == "" <==> Blank(prompt))
      && (r != "" ==> !IsWhitespace(r[0]) && !IsWhitespace(r[|r| - 1]))
  {
    var kept := Filter(NonEmpty, Map(Trim, Lines(prompt)));
    KeptLinesFacts(prompt);
    StripEnds(prompt, kept);
  }

  /** Trimming then dropping empty lines is filtering out blank lines then
      trimming. */
  lemma FilterTrimSwap(xs: seq<string>)
    ensures Filter(NonEmpty, Map(Trim, xs)) == Map(Trim, Filter(NotBlank, xs))
  {
    FilterMapSwap(Trim, NonEmpty, NotBlank, xs);
  }

  /** What the kept lines look like: the trimmed non-blank lines, each
      non-empty, already trimmed, and free of `'\n'`. */
  lemma KeptLinesFacts(prompt: string)
    ensures var kept := Filter(NonEmpty, Map(Trim, Lines(prompt)));
      && kept == TrimmedLines(prompt)
      && (forall k :: 0 <= k < |kept| ==> kept[k] != "" && Trim(kept[k]) == kept[k] && '\n' !in kept[k])
  {
    var lines := Lines(prompt);
    var trimmed := Map(Trim, lines);
    var kept := Filter(NonEmpty, trimmed);
    FilterTrimSwap(lines);
    forall k | 0 <= k < |kept|
      ensures kept[k] != "" && Trim(kept[k]) == kept[k] && '\n' !in kept[k]
    {
      assert NonEmpty(kept[k]) && kept[k] in trimmed;
      var i :| 0 <= i < |trimmed| && trimmed[i] == kept[k];
      assert kept[k] == Trim(lines[i]);
      TrimIdempotent(lines[i]);
      assert '\n' !in lines[i];
    }
  }

  /** The join of the kept lines is empty exactly for a blank prompt, and
      otherwise begins and ends inside a trimmed line. */
  lemma StripEnds(prompt: string, kept: seq<string>)
    requires kept == Filter(NonEmpty, Map(Trim, Lines(prompt)))
    requires forall k :: 0 <= k < |kept| ==> kept[k] != "" && Trim(kept[k]) == kept[k]
    ensures Join(kept, "\n") == "" <==> Blank(prompt)
    ensures Join(kept, "\n") != "" ==>
      !IsWhitespace(Join(kept, "\n")[0]) && !IsWhitespace(Join(kept, "\n")[|Join(kept, "\n")| - 1])
  {
    var lines := Lines(prompt);
    KeptEmptyIffBlank(prompt, lines, Map(Trim, lines), kept);
    if kept != [] {
      JoinTrimmedEnds(kept);
    }
  }

  lemma KeptEmptyIffBlank(prompt: string, lines: seq<string>, trimmed: seq<string>, kept: seq<string>)
    requires Join(lines, "\n") == prompt
    requires trimmed == Map(Trim, lines) && kept == Filter(NonEmpty, trimmed)
    ensures kept == [] <==> Blank(prompt)
  {
    assert Blank("\n");
    BlankJoin(lines, "\n");
    if kept == [] {
      forall i | 0 <= i < |lines| ensures Blank(lines[i]) {
        assert !NonEmpty(trimmed[i]);
      }
    } else {
      assert kept[0] in trimmed;
      var i :| 0 <= i < |trimmed| && trimmed[i] == kept[0];
      assert !Blank(lines[i]);
    }
  }

  lemma JoinTrimmedEnds(kept: seq<string>)
    requires kept != []
    requires forall k :: 0 <= k < |kept| ==> kept[k] != "" && Trim(kept[k]) == kept[k]
    ensures var j := Join(kept, "\n"); j != "" && !IsWhitespace(j[0]) && !IsWhitespace(j[|j| - 1])
  {
    var j := Join(kept, "\n");
    JoinEnds(kept, "\n");
    var first := kept[0];
    var last := kept[|kept| - 1];
    assert Trim(first) == first && Trim(last) == last;
    var a := first[0];
    var z := last[|last| - 1];
    assert !IsWhitespace(a) && !IsWhitespace(z);
    BoundaryChars(j, first, last);
  }

  /** The output's lines are exactly the trimmed non-blank input lines, in
      order; a blank prompt gives the single empty line of `"".split`. */
  lemma StripLines(prompt: string)
    ensures var r := StripPromptIndent(prompt);
      Lines(r) == (if r == "" then [""] else TrimmedLines(prompt))
  {
    var kept := Filter(NonEmpty, Map(Trim, Lines(prompt)));
    KeptLinesFacts(prompt);
    if kept != [] {
      SplitJoin(kept, "\n");
    }
  }

  /** No line of the output is empty, unless the output itself is. */
  lemma StripLinesNonEmpty(prompt: string)
    ensures var r := StripPromptIndent(prompt);
      r != "" ==> forall k :: 0 <= k < |Lines(r)| ==> Lines(r)[k] != ""
  {
    StripLines(prompt);
    KeptLinesFacts(prompt);
  }

  /** Every line of the output is its own trim. */
  lemma StripLinesTrimmed(prompt: string)
    ensures var r := StripPromptIndent(prompt);
      forall k :: 0 <= k < |Lines(r)| ==> Trim(Lines(r)[k]) == Lines(r)[k]
  {
    StripLines(prompt);
    KeptLinesFacts(prompt);
    assert Blank("");
  }

  /** Stripping a stripped prompt changes nothing. */
  lemma StripIdempotent(prompt: string)
    ensures StripPromptIndent(StripPromptIndent(prompt)) == StripPromptIndent(prompt)
  {
    var r := StripPromptIndent(prompt);
    StripLines(prompt);
    if r == "" {
      StripBlank();
    } else {
      KeptLinesFacts(prompt);
      StripKept(r, Filter(NonEmpty, Map(Trim, Lines(prompt))));
    }
  }

  lemma StripBlank()
    ensures StripPromptIndent("") == ""
  {
    assert Blank("");
  }

  lemma StripKept(r: string, kept: seq<string>)
    requires Lines(r) == kept
    requires forall k :: 0 <= k < |kept| ==> kept[k] != "" && Trim(kept[k]) == kept[k]
    requires r == Join(kept, "\n")
    ensures StripPromptIndent(r) == r
  {
    MapIdentity(Trim, kept);
    FilterAll(NonEmpty, kept);
  }
}
