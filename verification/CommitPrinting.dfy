/** Printing a commit message: the parser's inverse on exactly the messages it accepts. */
module CommitPrinting {
  import opened Sequences
  import opened Text
  import opened CommitSections

  // ----- what an accepted message looks like -----

  /** No blank line at either edge. */
  predicate Trimmed<L>(mark: L -> Mark, body: seq<L>) {
    body != [] ==> mark(body[0]) != Blank && mark(body[|body| - 1]) != Blank
  }

  /** No line of the body would end its section: no later title, and in the last section no
      breaking-change line after a blank one. */
  ghost predicate Closed<L>(mark: L -> Mark, body: seq<L>, section: nat) {
    forall k :: 0 <= k < |body| ==> !Ends(mark, body, k, section)
  }

  ghost predicate Printable<L>(mark: L -> Mark, m: Message<L>) {
    && |m.bodies| == SECTIONS
    && (forall n :: 0 <= n < SECTIONS ==> PrintableBody(mark, m.bodies[n], n))
    && (m.footer != [] ==> mark(m.footer[0]) == Breaking)
  }

  ghost predicate PrintableBody<L>(mark: L -> Mark, body: seq<L>, section: nat) {
    Trimmed(mark, body) && Closed(mark, body, section)
  }

  lemma TrimIsTrimmed<L>(mark: L -> Mark, lines: seq<L>)
    ensures Trimmed(mark, Trim(mark, lines))
  {
    var x := TrimStart(mark, lines);
    var y := TrimEnd(mark, lines, x, |lines|);
    if x < y {
      assert !IsBlankAt(mark, lines, x) && !IsBlankAt(mark, lines, y - 1);
    }
  }

  /** Lines inside a slice end a section only where they do in the whole message. */
  lemma SliceIsClosed<L>(mark: L -> Mark, lines: seq<L>, from: nat, to: nat, section: nat)
    requires from <= to <= |lines| && forall k :: from <= k < to ==> !Ends(mark, lines, k, section)
    ensures Closed(mark, lines[from..to], section)
  {
    forall k | 0 <= k < to - from ensures !Ends(mark, lines[from..to], k, section) {
      assert !Ends(mark, lines, from + k, section);
    }
  }

  lemma SectionIsPrintable<L>(mark: L -> Mark, lines: seq<L>, i: nat, section: nat)
    requires i <= |lines| && SectionAt(mark, lines, i, section).Section?
    ensures PrintableBody(mark, SectionAt(mark, lines, i, section).body, section)
  {
    var end := BodyEnd(mark, lines, i + 1, section);
    var raw := lines[i + 1..end];
    TrimIsTrimmed(mark, raw);
    SliceIsClosed(mark, lines, i + 1, end, section);
    var x := TrimStart(mark, raw);
    SliceIsClosed(mark, raw, x, TrimEnd(mark, raw, x, |raw|), section);
  }

  /** After the last section comes nothing, or the footer's first line. */
  lemma FooterIsBreaking<L>(mark: L -> Mark, lines: seq<L>, i: nat)
    requires i <= |lines| && SectionAt(mark, lines, i, SECTIONS - 1).Section? && NoLaterTitle(mark, lines)
    ensures var next := SectionAt(mark, lines, i, SECTIONS - 1).next; next < |lines| ==> mark(lines[next]) == Breaking
  {
    var end := BodyEnd(mark, lines, i + 1, SECTIONS - 1);
    if end < |lines| {
      assert Ends(mark, lines, end, SECTIONS - 1);
    }
  }

  /** There are no titles beyond the last section's. */
  ghost predicate NoLaterTitle<L>(mark: L -> Mark, lines: seq<L>) {
    forall k :: 0 <= k < |lines| ==> mark(lines[k]).Title? ==> mark(lines[k]).section < SECTIONS
  }

  lemma {:induction false} ParseFromIsPrintable<L>(mark: L -> Mark, lines: seq<L>, i: nat, found: seq<seq<L>>)
    requires NoLaterTitle(mark, lines) && i <= |lines| && |found| <= SECTIONS &&
             ParseFrom(mark, lines, i, found).Accepted?
    requires forall n :: 0 <= n < |found| ==> PrintableBody(mark, found[n], n)
    requires |found| == SECTIONS && i < |lines| ==> mark(lines[i]) == Breaking
    ensures Printable(mark, ParseFrom(mark, lines, i, found).message)
    decreases SECTIONS - |found|
  {
    if |found| < SECTIONS {
      var r := SectionAt(mark, lines, i, |found|);
      SectionIsPrintable(mark, lines, i, |found|);
      if |found| == SECTIONS - 1 {
        FooterIsBreaking(mark, lines, i);
      }
      ParseFromIsPrintable(mark, lines, r.next, found + [r.body]);
    }
  }

  /** Every accepted message is printable. */
  lemma AcceptedIsPrintable<L>(mark: L -> Mark, lines: seq<L>)
    requires NoLaterTitle(mark, lines) && ParseMessage(mark, lines).Accepted?
    ensures Printable(mark, ParseMessage(mark, lines).message)
  {
    ParseFromIsPrintable(mark, lines, SkipBlank(mark, lines, 1), []);
  }

  // ----- printing -----

  /** Title, body, and the blank lines after it. */
  function PrintSection<L>(title: L, body: seq<L>, gap: seq<L>): seq<L> { [title] + body + gap }

  /** The sections from number `n` on, then the footer. */
  function PrintFrom<L>(titles: seq<L>, m: Message<L>, gaps: seq<seq<L>>, n: nat): seq<L>
    requires n <= SECTIONS == |titles| == |m.bodies| == |gaps|
    decreases SECTIONS - n
  {
    if n == SECTIONS then m.footer
    else PrintSection(titles[n], m.bodies[n], gaps[n]) + PrintFrom(titles, m, gaps, n + 1)
  }

  function Print<L>(header: L, gap: seq<L>, titles: seq<L>, m: Message<L>, gaps: seq<seq<L>>): seq<L>
    requires SECTIONS == |titles| == |m.bodies| == |gaps|
  {
    [header] + gap + PrintFrom(titles, m, gaps, 0)
  }

  /** Blank lines in any number between the sections, at least one before a footer. */
  ghost predicate AreGaps<L>(mark: L -> Mark, gaps: seq<seq<L>>, m: Message<L>) {
    && |gaps| == SECTIONS && (forall n :: 0 <= n < SECTIONS ==> AllBlank(mark, gaps[n]))
    && (m.footer != [] ==> gaps[SECTIONS - 1] != [])
  }

  // ----- reading the print -----

  lemma {:induction false} BodyEndIs<L>(mark: L -> Mark, lines: seq<L>, i: nat, section: nat, end: nat)
    requires i <= end <= |lines| && (end < |lines| ==> Ends(mark, lines, end, section))
    requires forall k :: i <= k < end ==> !Ends(mark, lines, k, section)
    ensures BodyEnd(mark, lines, i, section) == end
    decreases end - i
  {
    if i < end {
      BodyEndIs(mark, lines, i + 1, section, end);
    }
  }

  lemma {:induction false} SkipBlankIs<L>(mark: L -> Mark, lines: seq<L>, i: nat, end: nat)
    requires i <= end <= |lines| && (end < |lines| ==> !IsBlankAt(mark, lines, end))
    requires forall k :: i <= k < end ==> IsBlankAt(mark, lines, k)
    ensures SkipBlank(mark, lines, i) == end
    decreases end - i
  {
    if i < end {
      SkipBlankIs(mark, lines, i + 1, end);
    }
  }

  lemma {:induction false} TrimEndIs<L>(mark: L -> Mark, lines: seq<L>, start: nat, end: nat, y: nat)
    requires start <= y <= end <= |lines| && (start < y ==> !IsBlankAt(mark, lines, y - 1))
    requires forall k :: y <= k < end ==> IsBlankAt(mark, lines, k)
    ensures TrimEnd(mark, lines, start, end) == y
    decreases end - y
  {
    if y < end {
      TrimEndIs(mark, lines, start, end - 1, y);
    }
  }

  /** Blank lines after a trimmed body are trimmed off. */
  lemma TrimOfPadded<L>(mark: L -> Mark, body: seq<L>, gap: seq<L>)
    requires Trimmed(mark, body) && AllBlank(mark, gap)
    ensures Trim(mark, body + gap) == body
  {
    var lines := body + gap;
    forall k | |body| <= k < |lines| ensures IsBlankAt(mark, lines, k) {
      assert IsBlankAt(mark, gap, k - |body|);
    }
    if body == [] {
      SkipBlankIs(mark, lines, 0, |lines|);
    } else {
      SkipBlankIs(mark, lines, 0, 0);
      TrimEndIs(mark, lines, 0, |lines|, |body|);
    }
  }

  /** A printed section inside a longer text, where the rest starts with something that ends it. */
  ghost predicate PrintedAt<L>(lines: seq<L>, i: nat, title: L, body: seq<L>, gap: seq<L>) {
    && i + 1 + |body| + |gap| <= |lines| && lines[i] == title
    && lines[i + 1..i + 1 + |body| + |gap|] == body + gap
  }

  /** Neither the body nor the gap ends the section. */
  lemma PrintedIsClosed<L>(mark: L -> Mark, lines: seq<L>, i: nat, title: L, body: seq<L>, gap: seq<L>, section: nat,
      k: nat)
    requires PrintedAt(lines, i, title, body, gap) && mark(title) == Title(section)
    requires PrintableBody(mark, body, section) && AllBlank(mark, gap) && i + 1 <= k < i + 1 + |body| + |gap|
    ensures !Ends(mark, lines, k, section)
  {
    var j := k - i - 1;
    assert lines[k] == (body + gap)[j];
    if j < |body| {
      assert !Ends(mark, body, j, section);
      if j > 0 {
        assert lines[k - 1] == (body + gap)[j - 1];
      }
    } else {
      assert IsBlankAt(mark, gap, j - |body|);
    }
  }

  lemma SectionReadsBack<L>(mark: L -> Mark, lines: seq<L>, i: nat, title: L, body: seq<L>, gap: seq<L>, section: nat)
    requires PrintedAt(lines, i, title, body, gap) && mark(title) == Title(section)
    requires PrintableBody(mark, body, section) && AllBlank(mark, gap)
    requires var next := i + 1 + |body| + |gap|; next < |lines| ==> Ends(mark, lines, next, section)
    ensures SectionAt(mark, lines, i, section) == Section(body, i + 1 + |body| + |gap|)
  {
    var next := i + 1 + |body| + |gap|;
    forall k | i + 1 <= k < next ensures !Ends(mark, lines, k, section) {
      PrintedIsClosed(mark, lines, i, title, body, gap, section, k);
    }
    BodyEndIs(mark, lines, i + 1, section, next);
    TrimOfPadded(mark, body, gap);
    SkipBlankIs(mark, lines, next, next);
  }

  lemma PrintedHere<L>(lines: seq<L>, before: seq<L>, title: L, body: seq<L>, gap: seq<L>, rest: seq<L>)
    requires lines == before + (PrintSection(title, body, gap) + rest)
    ensures PrintedAt(lines, |before|, title, body, gap) && lines == (before + PrintSection(title, body, gap)) + rest
  {}

  lemma TitleEnds<L>(mark: L -> Mark, done: seq<L>, rest: seq<L>, section: nat)
    requires rest != [] && mark(rest[0]).Title? && section < mark(rest[0]).section
    ensures Ends(mark, done + rest, |done|, section)
  {}

  lemma FooterEnds<L>(mark: L -> Mark, done: seq<L>, rest: seq<L>)
    requires done != [] && rest != [] && mark(Last(done)) == Blank && mark(rest[0]) == Breaking
    ensures Ends(mark, done + rest, |done|, SECTIONS - 1)
  {
    assert (done + rest)[|done| - 1] == Last(done);
  }

  lemma LastOfSection<L>(before: seq<L>, title: L, body: seq<L>, gap: seq<L>)
    ensures var done := before + PrintSection(title, body, gap);
            |done| == |before| + 1 + |body| + |gap| && (gap != [] ==> Last(done) == Last(gap))
  {}

  /** What follows a section in print ends it. */
  lemma {:induction false} NextEnds<L>(
    mark: L -> Mark, before: seq<L>, titles: seq<L>, m: Message<L>, gaps: seq<seq<L>>, n: nat)
    requires n < SECTIONS == |titles| && AreTitles(mark, titles) && Printable(mark, m) && AreGaps(mark, gaps, m)
    requires PrintFrom(titles, m, gaps, n + 1) != []
    ensures var done := before + PrintSection(titles[n], m.bodies[n], gaps[n]);
            Ends(mark, done + PrintFrom(titles, m, gaps, n + 1), |done|, n)
  {
    var done := before + PrintSection(titles[n], m.bodies[n], gaps[n]);
    var rest := PrintFrom(titles, m, gaps, n + 1);
    if n + 1 == SECTIONS {
      LastOfSection(before, titles[n], m.bodies[n], gaps[n]);
      assert IsBlankAt(mark, gaps[n], |gaps[n]| - 1);
      FooterEnds(mark, done, rest);
    } else {
      assert rest[0] == titles[n + 1];
      TitleEnds(mark, done, rest, n);
    }
  }

  lemma SectionThere<L>(mark: L -> Mark, before: seq<L>, title: L, body: seq<L>, gap: seq<L>, rest: seq<L>,
      lines: seq<L>, n: nat)
    requires mark(title) == Title(n) && PrintableBody(mark, body, n) && AllBlank(mark, gap)
    requires lines == before + (PrintSection(title, body, gap) + rest)
    requires var done := before + PrintSection(title, body, gap); rest != [] ==> Ends(mark, done + rest, |done|, n)
    ensures var done := before + PrintSection(title, body, gap);
            lines == done + rest && SectionAt(mark, lines, |before|, n) == Section(body, |done|)
  {
    PrintedHere(lines, before, title, body, gap, rest);
    LastOfSection(before, title, body, gap);
    SectionReadsBack(mark, lines, |before|, title, body, gap, n);
  }

  lemma SectionInPrint<L>(
    mark: L -> Mark, before: seq<L>, titles: seq<L>, m: Message<L>, gaps: seq<seq<L>>, n: nat, lines: seq<L>)
    requires n < SECTIONS == |titles| && AreTitles(mark, titles) && Printable(mark, m) && AreGaps(mark, gaps, m)
    requires lines == before + PrintFrom(titles, m, gaps, n)
    ensures var after := before + PrintSection(titles[n], m.bodies[n], gaps[n]);
            lines == after + PrintFrom(titles, m, gaps, n + 1) &&
            SectionAt(mark, lines, |before|, n) == Section(m.bodies[n], |after|)
  {
    var rest := PrintFrom(titles, m, gaps, n + 1);
    if rest != [] {
      NextEnds(mark, before, titles, m, gaps, n);
    }
    assert PrintableBody(mark, m.bodies[n], n) && AllBlank(mark, gaps[n]);
    SectionThere(mark, before, titles[n], m.bodies[n], gaps[n], rest, lines, n);
  }

  lemma PrefixGrows<A>(s: seq<A>, n: nat)
    requires n < |s|
    ensures s[..n] + [s[n]] == s[..n + 1]
  {}

  lemma {:induction false} FooterReadsBack<L>(mark: L -> Mark, before: seq<L>, m: Message<L>, found: seq<seq<L>>)
    requires |m.bodies| == SECTIONS && found == m.bodies
    ensures ParseFrom(mark, before + m.footer, |before|, found) == Accepted(m)
  {
    assert (before + m.footer)[|before|..] == m.footer;
  }

  lemma {:induction false} PrintFromReadsBack<L>(
    mark: L -> Mark, before: seq<L>, titles: seq<L>, m: Message<L>, gaps: seq<seq<L>>, n: nat, lines: seq<L>,
      found: seq<seq<L>>)
    requires n <= SECTIONS == |titles| && AreTitles(mark, titles) && Printable(mark, m) && AreGaps(mark, gaps, m)
    requires lines == before + PrintFrom(titles, m, gaps, n) && found == m.bodies[..n]
    ensures ParseFrom(mark, lines, |before|, found) == Accepted(m)
    decreases SECTIONS - n
  {
    if n == SECTIONS {
      FooterReadsBack(mark, before, m, found);
    } else {
      SectionInPrint(mark, before, titles, m, gaps, n, lines);
      PrefixGrows(m.bodies, n);
      PrintFromReadsBack(mark, before + PrintSection(titles[n], m.bodies[n], gaps[n]), titles, m, gaps, n + 1, lines,
        found + [m.bodies[n]]);
    }
  }

  lemma {:induction false} HeaderIsSkipped<L>(mark: L -> Mark, header: L, gap: seq<L>, title: L, rest: seq<L>)
    requires AllBlank(mark, gap) && mark(title) != Blank
    ensures SkipBlank(mark, [header] + gap + ([title] + rest), 1) == 1 + |gap|
  {
    var lines := [header] + gap + ([title] + rest);
    forall k | 1 <= k < 1 + |gap| ensures IsBlankAt(mark, lines, k) {
      assert IsBlankAt(mark, gap, k - 1);
    }
    assert lines[1 + |gap|] == title;
    SkipBlankIs(mark, lines, 1, 1 + |gap|);
  }

  /** Printing and parsing gives the message back, whatever blank lines separate its parts. */
  lemma PrintReadsBack<L>(mark: L -> Mark, header: L, gap: seq<L>, titles: seq<L>, m: Message<L>, gaps: seq<seq<L>>)
    requires |titles| == SECTIONS && AreTitles(mark, titles) && Printable(mark, m)
    requires AllBlank(mark, gap) && AreGaps(mark, gaps, m)
    ensures ParseMessage(mark, Print(header, gap, titles, m, gaps)) == Accepted(m)
  {
    var printed := PrintFrom(titles, m, gaps, 0);
    assert mark(titles[0]) == Title(0);
    assert printed == [titles[0]] + printed[1..];
    HeaderIsSkipped(mark, header, gap, titles[0], printed[1..]);
    PrintFromReadsBack(mark, [header] + gap, titles, m, gaps, 0, [header] + gap + printed, []);
  }

  /** Parsing, printing and parsing again changes nothing. */
  lemma ParsePrintParse<L>(mark: L -> Mark, lines: seq<L>, header: L, gap: seq<L>, titles: seq<L>, gaps: seq<seq<L>>)
    requires NoLaterTitle(mark, lines) && ParseMessage(mark, lines).Accepted?
    requires |titles| == SECTIONS && AreTitles(mark, titles) && AllBlank(mark, gap)
    requires AreGaps(mark, gaps, ParseMessage(mark, lines).message)
    ensures |ParseMessage(mark, lines).message.bodies| == SECTIONS
    ensures ParseMessage(mark, Print(header, gap, titles, ParseMessage(mark, lines).message, gaps)) ==
            ParseMessage(mark, lines)
  {
    AcceptedIsPrintable(mark, lines);
    PrintReadsBack(mark, header, gap, titles, ParseMessage(mark, lines).message, gaps);
  }

  // ----- the convention's own lines -----

  function TitleText(section: nat): string
    requires section < SECTIONS
  {
    if section == 0 then "Why:" else if section == 1 then "What:" else "Validation:"
  }

  const BREAKING: string := "BREAKING CHANGE:"

  /** How `_parse_sections` looks at a line. */
  function LineMark(line: string): (r: Mark)
    ensures r.Title? ==> r.section < SECTIONS
  {
    var s := Strip(line);
    if s == "" then Blank
    else if s == TitleText(0) then Title(0)
    else if s == TitleText(1) then Title(1)
    else if s == TitleText(2) then Title(2)
    else if BREAKING <= s then Breaking
    else Other
  }

  lemma TrimIff(line: string, text: string)
    ensures IsTrim(line, text) <==> Strip(line) == text
  {
    StripIsTrim(line);
    if IsTrim(line, text) {
      TrimIsStrip(line, text);
    }
  }

  /** What the marks mean: the text between the blanks is a title, begins with the breaking-change phrase, or is
      empty. */
  lemma TitleMarks(line: string)
    ensures LineMark(line) == Title(0) <==> IsTrim(line, "Why:")
    ensures LineMark(line) == Title(1) <==> IsTrim(line, "What:")
    ensures LineMark(line) == Title(2) <==> IsTrim(line, "Validation:")
    ensures LineMark(line) == Blank <==> forall i :: 0 <= i < |line| ==> IsSpace(line[i])
  {
    assert TitleText(0)[2] == 'y' && TitleText(1)[2] == 'a' && TitleText(2)[0] == 'V';
    TrimIff(line, "Why:");
    TrimIff(line, "What:");
    TrimIff(line, "Validation:");
    var _, _ := StripCuts(line);
  }

  lemma BreakingMark(line: string)
    ensures LineMark(line) == Breaking <==> exists rest :: IsTrim(line, "BREAKING CHANGE:" + rest)
  {
    if LineMark(line) == Breaking {
      var s, phrase := Strip(line), "BREAKING CHANGE:";
      assert s == phrase + s[|phrase|..];
      TrimIff(line, phrase + s[|phrase|..]);
    }
    forall rest | IsTrim(line, "BREAKING CHANGE:" + rest) ensures LineMark(line) == Breaking {
      BreakingIsMarked(line, "BREAKING CHANGE:" + rest);
    }
  }

  lemma BreakingIsMarked(line: string, s: string)
    requires IsTrim(line, s) && "BREAKING CHANGE:" <= s
    ensures LineMark(line) == Breaking
  {
    TrimIff(line, s);
    assert s[0] == 'B' && TitleText(0)[0] == 'W' && TitleText(1)[0] == 'W' && TitleText(2)[0] == 'V';
  }

  lemma TitlesAreMarked(section: nat)
    requires section < SECTIONS
    ensures LineMark(TitleText(section)) == Title(section)
  {
    assert TitleText(0)[1] == 'h' && TitleText(0)[2] == 'y' && TitleText(1)[2] == 'a' && TitleText(2)[0] == 'V';
    StripOfTrimmed(TitleText(section));
  }

  /** The convention's messages: what is accepted can be printed under the three titles and reads the same. */
  lemma CommitMessagesReadBack(lines: seq<string>, header: string, gaps: seq<seq<string>>)
    requires ParseMessage(LineMark, lines).Accepted? && AreGaps(LineMark, gaps, ParseMessage(LineMark, lines).message)
    ensures var titles := [TitleText(0), TitleText(1), TitleText(2)];
            var m := ParseMessage(LineMark, lines).message;
            |m.bodies| == SECTIONS && ParseMessage(LineMark, Print(header, [], titles, m, gaps)) == Accepted(m)
  {
    var titles := [TitleText(0), TitleText(1), TitleText(2)];
    forall k | 0 <= k < SECTIONS ensures LineMark(titles[k]) == Title(k) {
      TitlesAreMarked(k);
    }
    ParsePrintParse(LineMark, lines, header, [], titles, gaps);
  }
}
