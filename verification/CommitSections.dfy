/** The section parser of commit messages: it loses no line, and printing is its inverse.
    Lines are looked at only through their mark, so the proofs take any lines and any marks. */
module CommitSections {
  import opened Sequences

  /** What the parser sees in a line; sections are numbered in their required order. */
  datatype Mark = Blank | Title(section: nat) | Breaking | Other

  const SECTIONS: nat := 3

  /** The three bodies and the footer of an accepted message. */
  datatype Message<L> = Message(bodies: seq<seq<L>>, footer: seq<L>)

  /** What `_parse_sections` returns: the sections found, and the missing title if there is one. */
  datatype Parse<L> = Accepted(message: Message<L>) | Missing(section: nat, found: seq<seq<L>>)

  predicate IsBlankAt<L>(mark: L -> Mark, lines: seq<L>, i: nat)
    requires i < |lines|
  {
    mark(lines[i]) == Blank
  }

  // ----- scanning -----

  function SkipBlank<L>(mark: L -> Mark, lines: seq<L>, i: nat): (r: nat)
    requires i <= |lines|
    ensures i <= r <= |lines| && (r < |lines| ==> !IsBlankAt(mark, lines, r))
    ensures forall k :: i <= k < r ==> IsBlankAt(mark, lines, k)
    decreases |lines| - i
  {
    if i < |lines| && IsBlankAt(mark, lines, i) then SkipBlank(mark, lines, i + 1) else i
  }

  method SkipBlankLines<L>(mark: L -> Mark, lines: seq<L>, i: nat) returns (index: nat)
    requires i <= |lines|
    ensures index == SkipBlank(mark, lines, i)
  {
    index := i;
    while index < |lines| && mark(lines[index]) == Blank
      invariant index <= |lines| && SkipBlank(mark, lines, index) == SkipBlank(mark, lines, i)
    {
      index := index + 1;
    }
  }

  /** `_is_breaking_footer_start`. */
  predicate FooterStart<L>(mark: L -> Mark, lines: seq<L>, i: nat)
    requires i < |lines|
  {
    mark(lines[i]) == Breaking && i > 0 && IsBlankAt(mark, lines, i - 1)
  }

  /** A body ends before a later title; the last body also before the footer. */
  predicate Ends<L>(mark: L -> Mark, lines: seq<L>, i: nat, section: nat)
    requires i < |lines|
  {
    (mark(lines[i]).Title? && section < mark(lines[i]).section) ||
      (section == SECTIONS - 1 && FooterStart(mark, lines, i))
  }

  function BodyEnd<L>(mark: L -> Mark, lines: seq<L>, i: nat, section: nat): (r: nat)
    requires i <= |lines|
    ensures i <= r <= |lines| && (r < |lines| ==> Ends(mark, lines, r, section))
    ensures forall k :: i <= k < r ==> !Ends(mark, lines, k, section)
    decreases |lines| - i
  {
    if i < |lines| && !Ends(mark, lines, i, section) then BodyEnd(mark, lines, i + 1, section) else i
  }

  function TrimStart<L>(mark: L -> Mark, lines: seq<L>): nat { SkipBlank(mark, lines, 0) }

  function TrimEnd<L>(mark: L -> Mark, lines: seq<L>, start: nat, end: nat): (r: nat)
    requires start <= end <= |lines|
    ensures start <= r <= end && (start < r ==> !IsBlankAt(mark, lines, r - 1))
    ensures forall k :: r <= k < end ==> IsBlankAt(mark, lines, k)
    decreases end
  {
    if start < end && IsBlankAt(mark, lines, end - 1) then TrimEnd(mark, lines, start, end - 1) else end
  }

  function Trim<L>(mark: L -> Mark, lines: seq<L>): seq<L> {
    var start := TrimStart(mark, lines);
    lines[start..TrimEnd(mark, lines, start, |lines|)]
  }

  /** `_trim_blank_edges`. */
  method TrimBlankEdges<L>(mark: L -> Mark, lines: seq<L>) returns (trimmed: seq<L>)
    ensures trimmed == Trim(mark, lines)
  {
    var start: nat, end: nat := 0, |lines|;
    while start < end && mark(lines[start]) == Blank
      invariant start <= end && SkipBlank(mark, lines, start) == TrimStart(mark, lines)
    {
      start := start + 1;
    }
    while end > start && mark(lines[end - 1]) == Blank
      invariant start <= end <= |lines| && TrimEnd(mark, lines, start, end) == TrimEnd(mark, lines, start, |lines|)
    {
      end := end - 1;
    }
    trimmed := lines[start..end];
  }

  // ----- one section -----

  /** A section that starts with its title at `i`: its body and where the next thing starts. */
  datatype Section<L> = NoSection | Section(body: seq<L>, next: nat)

  function SectionAt<L>(mark: L -> Mark, lines: seq<L>, i: nat, section: nat): (r: Section<L>)
    requires i <= |lines|
    ensures r.Section? ==> i < r.next <= |lines|
  {
    if i == |lines| || mark(lines[i]) != Title(section) then NoSection
    else
      var end := BodyEnd(mark, lines, i + 1, section);
      Section(Trim(mark, lines[i + 1..end]), SkipBlank(mark, lines, end))
  }

  method ParseSection<L>(mark: L -> Mark, lines: seq<L>, i: nat, section: nat) returns (r: Section<L>)
    requires i <= |lines|
    ensures r == SectionAt(mark, lines, i, section)
  {
    if i >= |lines| || mark(lines[i]) != Title(section) {
      return NoSection;
    }
    var index := i + 1;
    var content := [];
    while index < |lines| && !Ends(mark, lines, index, section)
      invariant i < index <= |lines| && content == lines[i + 1..index]
      invariant BodyEnd(mark, lines, index, section) == BodyEnd(mark, lines, i + 1, section)
    {
      content := content + [lines[index]];
      index := index + 1;
    }
    var body := TrimBlankEdges(mark, content);
    index := SkipBlankLines(mark, lines, index);
    r := Section(body, index);
  }

  // ----- the message -----

  /** The sections from number `n` on, starting at line `i`. */
  function ParseFrom<L>(mark: L -> Mark, lines: seq<L>, i: nat, found: seq<seq<L>>): Parse<L>
    requires i <= |lines| && |found| <= SECTIONS
    decreases SECTIONS - |found|
  {
    if |found| == SECTIONS then Accepted(Message(found, lines[i..]))
    else
      match SectionAt(mark, lines, i, |found|)
      case NoSection => Missing(|found|, found)
      case Section(body, next) => ParseFrom(mark, lines, next, found + [body])
  }

  /** Line 0 is the header; an empty message has no sections either. */
  function ParseMessage<L>(mark: L -> Mark, lines: seq<L>): Parse<L> {
    if lines == [] then Missing(0, []) else ParseFrom(mark, lines, SkipBlank(mark, lines, 1), [])
  }

  /** `_parse_sections`. */
  method ParseSections<L>(mark: L -> Mark, lines: seq<L>) returns (r: Parse<L>)
    ensures r == ParseMessage(mark, lines) && IsParse(mark, lines, r)
  {
    ParseIsParse(mark, lines);
    if lines == [] {
      return Missing(0, []);
    }
    var index: nat := SkipBlankLines(mark, lines, 1);
    var found: seq<seq<L>> := [];
    for offset := 0 to SECTIONS
      invariant |found| == offset && index <= |lines| &&
                ParseFrom(mark, lines, index, found) == ParseMessage(mark, lines)
    {
      var section := ParseSection(mark, lines, index, offset);
      if section.NoSection? {
        return Missing(offset, found);
      }
      found := found + [section.body];
      index := section.next;
    }
    r := Accepted(Message(found, lines[index..]));
  }

  // ----- where the parts of a message are -----

  /** The line ends the section before it: a later title, or in the last of the three sections the first line of the
      footer, a breaking change after a blank line. */
  ghost predicate ClosesAt<L>(mark: L -> Mark, lines: seq<L>, i: nat, section: nat)
    requires i < |lines|
  {
    match mark(lines[i])
    case Title(n) => n > section
    case Breaking => section == 2 && i > 0 && mark(lines[i - 1]).Blank?
    case _ => false
  }

  /** The first line from `from` on that closes the section, or the end of the message. */
  ghost predicate IsClose<L>(mark: L -> Mark, lines: seq<L>, from: nat, section: nat, end: nat) {
    && from <= end <= |lines| && (end < |lines| ==> ClosesAt(mark, lines, end, section))
    && forall k :: from <= k < end ==> !ClosesAt(mark, lines, k, section)
  }

  /** `body` is what is left of the lines without the blank ones at both ends. */
  ghost predicate IsBody<L>(mark: L -> Mark, lines: seq<L>, from: nat, to: nat, body: seq<L>)
    requires from <= to <= |lines|
  {
    exists x, y :: from <= x <= y <= to && IsBodyAt(mark, lines, from, to, body, x, y)
  }

  ghost predicate IsBodyAt<L>(mark: L -> Mark, lines: seq<L>, from: nat, to: nat, body: seq<L>, x: nat, y: nat)
    requires from <= x <= y <= to <= |lines|
  {
    && body == lines[x..y] && (forall k :: from <= k < x || y <= k < to ==> mark(lines[k]).Blank?)
    && (body != [] ==> !mark(lines[x]).Blank? && !mark(lines[y - 1]).Blank?)
  }

  /** Section `n` has its title at `starts[n]`, and its body ends where the next part starts. */
  ghost predicate IsSectionAt<L>(mark: L -> Mark, lines: seq<L>, starts: seq<nat>, n: nat, body: seq<L>)
    requires n + 1 < |starts|
  {
    && starts[n] < |lines| && mark(lines[starts[n]]) == Title(n)
    && IsClose(mark, lines, starts[n] + 1, n, starts[n + 1]) && IsBody(mark, lines, starts[n] + 1, starts[n + 1], body)
  }

  /** The first part starts after the header and the blank lines below it, and the found sections follow. */
  ghost predicate LaidOut<L>(mark: L -> Mark, lines: seq<L>, starts: seq<nat>, found: seq<seq<L>>) {
    && |starts| == |found| + 1 && 1 <= starts[0] <= |lines|
    && (forall k :: 1 <= k < starts[0] ==> mark(lines[k]).Blank?)
    && (starts[0] < |lines| ==> !mark(lines[starts[0]]).Blank?)
    && forall n :: 0 <= n < |found| ==> IsSectionAt(mark, lines, starts, n, found[n])
  }

  /** A parse is where it says it is: three sections and the rest as the footer, or the sections before the first one
      whose title is not where it should be. */
  ghost predicate IsParse<L>(mark: L -> Mark, lines: seq<L>, r: Parse<L>) {
    if lines == [] then r == Missing(0, [])
    else
      match r
      case Accepted(m) =>
        exists starts :: |m.bodies| == 3 && LaidOut(mark, lines, starts, m.bodies) && IsRest(lines, starts, m.footer)
      case Missing(n, found) =>
        n == |found| < 3 && exists starts :: LaidOut(mark, lines, starts, found) && NoTitle(mark, lines, starts, n)
  }

  ghost predicate IsRest<L>(lines: seq<L>, starts: seq<nat>, footer: seq<L>) {
    starts != [] && starts[|starts| - 1] <= |lines| && footer == lines[starts[|starts| - 1]..]
  }

  ghost predicate NoTitle<L>(mark: L -> Mark, lines: seq<L>, starts: seq<nat>, n: nat) {
    n < |starts| && (starts[n] < |lines| ==> mark(lines[starts[n]]) != Title(n))
  }

  lemma SectionIsAt<L>(mark: L -> Mark, lines: seq<L>, i: nat, section: nat)
    requires i <= |lines| && SectionAt(mark, lines, i, section).Section?
    ensures var r := SectionAt(mark, lines, i, section);
            && i < |lines| && mark(lines[i]) == Title(section) && IsClose(mark, lines, i + 1, section, r.next)
            && IsBody(mark, lines, i + 1, r.next, r.body)
  {
    var end := BodyEnd(mark, lines, i + 1, section);
    forall k | i + 1 <= k < |lines| ensures Ends(mark, lines, k, section) <==> ClosesAt(mark, lines, k, section) {
    }
    assert SkipBlank(mark, lines, end) == end;
    TrimIsBody(mark, lines, i + 1, end);
  }

  lemma SliceOfSlice<L>(lines: seq<L>, from: nat, to: nat, x: nat, y: nat)
    requires from <= to <= |lines| && x <= y <= to - from
    ensures lines[from..to][x..y] == lines[from + x..from + y]
  {
    var mid := lines[from..to];
    forall k | 0 <= k < y - x ensures mid[x..y][k] == lines[from + x..from + y][k] {
      assert mid[x..y][k] == mid[x + k];
    }
  }

  lemma TrimIsBody<L>(mark: L -> Mark, lines: seq<L>, from: nat, to: nat)
    requires from <= to <= |lines|
    ensures IsBody(mark, lines, from, to, Trim(mark, lines[from..to]))
  {
    var raw := lines[from..to];
    var x := TrimStart(mark, raw);
    var y := TrimEnd(mark, raw, x, |raw|);
    forall k | from <= k < from + x || from + y <= k < to ensures mark(lines[k]).Blank? {
      assert IsBlankAt(mark, raw, k - from);
    }
    SliceOfSlice(lines, from, to, x, y);
    if x < y {
      assert !IsBlankAt(mark, raw, x) && !IsBlankAt(mark, raw, y - 1);
    }
    assert IsBodyAt(mark, lines, from, to, Trim(mark, raw), from + x, from + y);
  }

  lemma LaidOutSnoc<L>(mark: L -> Mark, lines: seq<L>, starts: seq<nat>, found: seq<seq<L>>, body: seq<L>, next: nat)
    requires LaidOut(mark, lines, starts, found)
    requires IsSectionAt(mark, lines, starts + [next], |found|, body)
    ensures LaidOut(mark, lines, starts + [next], found + [body])
  {
    forall n | 0 <= n < |found| + 1 ensures IsSectionAt(mark, lines, starts + [next], n, (found + [body])[n]) {
      if n < |found| {
        assert IsSectionAt(mark, lines, starts, n, found[n]);
      }
    }
  }

  lemma {:induction false} ParseFromIsParse<L>(mark: L -> Mark, lines: seq<L>, starts: seq<nat>, found: seq<seq<L>>)
    requires LaidOut(mark, lines, starts, found) && |found| <= 3 && starts[|found|] <= |lines|
    ensures IsParse(mark, lines, ParseFrom(mark, lines, starts[|found|], found))
    decreases 3 - |found|
  {
    var i := starts[|found|];
    if |found| == 3 {
      assert IsRest(lines, starts, lines[i..]);
    } else if SectionAt(mark, lines, i, |found|).NoSection? {
      assert NoTitle(mark, lines, starts, |found|);
    } else {
      var r := SectionAt(mark, lines, i, |found|);
      SectionIsAt(mark, lines, i, |found|);
      assert IsSectionAt(mark, lines, starts + [r.next], |found|, r.body);
      LaidOutSnoc(mark, lines, starts, found, r.body, r.next);
      ParseFromIsParse(mark, lines, starts + [r.next], found + [r.body]);
    }
  }

  lemma ParseIsParse<L>(mark: L -> Mark, lines: seq<L>)
    ensures IsParse(mark, lines, ParseMessage(mark, lines))
  {
    if lines != [] {
      var i := SkipBlank(mark, lines, 1);
      forall k | 1 <= k < i ensures mark(lines[k]).Blank? {
        assert IsBlankAt(mark, lines, k);
      }
      ParseFromIsParse(mark, lines, [i], []);
    }
  }

  // ----- nothing is lost -----

  function NonBlank<L>(mark: L -> Mark, lines: seq<L>): seq<L> {
    if lines == [] then []
    else if mark(Last(lines)) == Blank then NonBlank(mark, Front(lines))
    else NonBlank(mark, Front(lines)) + [Last(lines)]
  }

  lemma {:induction false} NonBlankSnoc<L>(mark: L -> Mark, lines: seq<L>, l: L)
    ensures NonBlank(mark, lines + [l]) == if mark(l) == Blank then NonBlank(mark, lines)
            else NonBlank(mark, lines) + [l]
  {
    assert Front(lines + [l]) == lines;
  }

  lemma {:induction false} NonBlankConcat<L>(mark: L -> Mark, a: seq<L>, b: seq<L>)
    ensures NonBlank(mark, a + b) == NonBlank(mark, a) + NonBlank(mark, b)
  {
    if b == [] {
      assert a + b == a;
    } else {
      NonBlankConcat(mark, a, Front(b));
      FrontLast(b);
      assert a + b == (a + Front(b)) + [Last(b)];
      NonBlankSnoc(mark, a + Front(b), Last(b));
      NonBlankSnoc(mark, Front(b), Last(b));
    }
  }

  ghost predicate AllBlank<L>(mark: L -> Mark, lines: seq<L>) {
    forall k :: 0 <= k < |lines| ==> IsBlankAt(mark, lines, k)
  }

  lemma {:induction false} NonBlankOfBlank<L>(mark: L -> Mark, lines: seq<L>)
    requires AllBlank(mark, lines)
    ensures NonBlank(mark, lines) == []
  {
    if lines != [] {
      forall k | 0 <= k < |Front(lines)| ensures IsBlankAt(mark, Front(lines), k) {
        assert IsBlankAt(mark, lines, k);
      }
      NonBlankOfBlank(mark, Front(lines));
      assert IsBlankAt(mark, lines, |lines| - 1);
    }
  }

  lemma {:induction false} NonBlankOf<L>(mark: L -> Mark, a: seq<L>, b: seq<L>, c: seq<L>)
    requires AllBlank(mark, a) && AllBlank(mark, c)
    ensures NonBlank(mark, (a + b) + c) == NonBlank(mark, b)
  {
    NonBlankConcat(mark, a + b, c);
    NonBlankConcat(mark, a, b);
    NonBlankOfBlank(mark, a);
    NonBlankOfBlank(mark, c);
  }

  lemma BlankSlice<L>(mark: L -> Mark, lines: seq<L>, from: nat, to: nat)
    requires from <= to <= |lines| && forall k :: from <= k < to ==> IsBlankAt(mark, lines, k)
    ensures AllBlank(mark, lines[from..to])
  {
    forall k | 0 <= k < to - from ensures IsBlankAt(mark, lines[from..to], k) {
      assert IsBlankAt(mark, lines, from + k);
    }
  }

  lemma ThreeSlices<L>(lines: seq<L>, x: nat, y: nat)
    requires x <= y <= |lines|
    ensures lines == (lines[0..x] + lines[x..y]) + lines[y..|lines|]
  {}

  /** Blank lines at the edges do not count. */
  lemma {:induction false} NonBlankEdges<L>(mark: L -> Mark, lines: seq<L>, x: nat, y: nat)
    requires x <= y <= |lines|
    requires forall k :: 0 <= k < x ==> IsBlankAt(mark, lines, k)
    requires forall k :: y <= k < |lines| ==> IsBlankAt(mark, lines, k)
    ensures NonBlank(mark, lines) == NonBlank(mark, lines[x..y])
  {
    BlankSlice(mark, lines, 0, x);
    BlankSlice(mark, lines, y, |lines|);
    ThreeSlices(lines, x, y);
    NonBlankOf(mark, lines[0..x], lines[x..y], lines[y..|lines|]);
  }

  lemma {:induction false} NonBlankTrim<L>(mark: L -> Mark, lines: seq<L>)
    ensures NonBlank(mark, Trim(mark, lines)) == NonBlank(mark, lines)
  {
    var x := TrimStart(mark, lines);
    NonBlankEdges(mark, lines, x, TrimEnd(mark, lines, x, |lines|));
  }

  lemma {:induction false} NonBlankSkip<L>(mark: L -> Mark, lines: seq<L>, i: nat)
    requires i <= |lines|
    ensures NonBlank(mark, lines[i..]) == NonBlank(mark, lines[SkipBlank(mark, lines, i)..])
  {
    var n := SkipBlank(mark, lines, i);
    forall k | 0 <= k < n - i ensures IsBlankAt(mark, lines[i..], k) {
      assert IsBlankAt(mark, lines, i + k);
    }
    NonBlankEdges(mark, lines[i..], n - i, |lines| - i);
    assert lines[i..][n - i..|lines| - i] == lines[n..];
  }

  /** A section takes its title, its body, and nothing else that is not blank. */
  lemma SectionKeeps<L>(mark: L -> Mark, lines: seq<L>, i: nat, section: nat)
    requires i <= |lines| && SectionAt(mark, lines, i, section).Section?
    ensures var r := SectionAt(mark, lines, i, section);
            NonBlank(mark, lines[i..]) == [lines[i]] + NonBlank(mark, r.body) + NonBlank(mark, lines[r.next..])
  {
    var end := BodyEnd(mark, lines, i + 1, section);
    var raw := lines[i + 1..end];
    assert lines[i..] == ([lines[i]] + raw) + lines[end..];
    NonBlankConcat(mark, [lines[i]] + raw, lines[end..]);
    NonBlankConcat(mark, [lines[i]], raw);
    assert [lines[i]] == [] + [lines[i]];
    NonBlankSnoc(mark, [], lines[i]);
    NonBlankTrim(mark, raw);
    NonBlankSkip(mark, lines, end);
  }

  /** Titles, bodies and footer in the order in which the parser assigned them. */
  function Assigned<L>(titles: seq<L>, bodies: seq<seq<L>>): seq<L>
    requires |titles| == |bodies|
  {
    if titles == [] then [] else Assigned(Front(titles), Front(bodies)) + [Last(titles)] + Last(bodies)
  }

  lemma {:induction false} AssignedSnoc<L>(mark: L -> Mark, titles: seq<L>, bodies: seq<seq<L>>, t: L, body: seq<L>)
    requires |titles| == |bodies| && mark(t) != Blank
    ensures Assigned(titles + [t], bodies + [body]) == Assigned(titles, bodies) + [t] + body
    ensures NonBlank(mark, Assigned(titles + [t], bodies + [body])) ==
            NonBlank(mark, Assigned(titles, bodies)) + [t] + NonBlank(mark, body)
  {
    assert Front(titles + [t]) == titles && Front(bodies + [body]) == bodies;
    NonBlankConcat(mark, Assigned(titles, bodies) + [t], body);
    NonBlankSnoc(mark, Assigned(titles, bodies), t);
  }

  ghost predicate AreTitles<L>(mark: L -> Mark, titles: seq<L>) {
    forall k :: 0 <= k < |titles| ==> mark(titles[k]) == Title(k)
  }

  lemma Regroup<L>(a: seq<L>, t: seq<L>, b: seq<L>, r: seq<L>)
    ensures a + (t + b + r) == (a + t + b) + r
  {}

  /** One section further: the same lines, one title and one body more. */
  lemma {:induction false} SectionMoves<L>(mark: L -> Mark, lines: seq<L>, i: nat, titles: seq<L>, found: seq<seq<L>>)
    requires i <= |lines| && |titles| == |found| && SectionAt(mark, lines, i, |found|).Section?
    ensures var r := SectionAt(mark, lines, i, |found|);
            NonBlank(mark, Assigned(titles, found)) + NonBlank(mark, lines[i..])
            == NonBlank(mark, Assigned(titles + [lines[i]], found + [r.body])) + NonBlank(mark, lines[r.next..])
  {
    var r := SectionAt(mark, lines, i, |found|);
    SectionKeeps(mark, lines, i, |found|);
    AssignedSnoc(mark, titles, found, lines[i], r.body);
    Regroup(NonBlank(mark, Assigned(titles, found)), [lines[i]], NonBlank(mark, r.body),
      NonBlank(mark, lines[r.next..]));
  }

  ghost predicate Complete<L>(mark: L -> Mark, all: seq<L>, titles: seq<L>, m: Message<L>) {
    && |titles| == |m.bodies| == SECTIONS && AreTitles(mark, titles)
    && all == NonBlank(mark, Assigned(titles, m.bodies)) + NonBlank(mark, m.footer)
  }

  lemma {:induction false} ParseFromKeeps<L>(mark: L -> Mark, lines: seq<L>, i: nat, titles: seq<L>,
      found: seq<seq<L>>, all: seq<L>)
      returns (titles': seq<L>)
    requires i <= |lines| && |titles| == |found| <= SECTIONS && AreTitles(mark, titles)
    requires ParseFrom(mark, lines, i, found).Accepted?
    requires all == NonBlank(mark, Assigned(titles, found)) + NonBlank(mark, lines[i..])
    ensures Complete(mark, all, titles', ParseFrom(mark, lines, i, found).message)
    decreases SECTIONS - |found|
  {
    if |found| == SECTIONS {
      titles' := titles;
    } else {
      var r := SectionAt(mark, lines, i, |found|);
      SectionMoves(mark, lines, i, titles, found);
      titles' := ParseFromKeeps(mark, lines, r.next, titles + [lines[i]], found + [r.body], all);
    }
  }

  /** In an accepted parse every non-blank line after the header is, in order, a title, a line of a body or a line of
      the footer. */
  lemma NothingIsLost<L>(mark: L -> Mark, lines: seq<L>) returns (titles: seq<L>)
    requires ParseMessage(mark, lines).Accepted?
    ensures lines != [] && Complete(mark, NonBlank(mark, lines[1..]), titles, ParseMessage(mark, lines).message)
  {
    var i := SkipBlank(mark, lines, 1);
    NonBlankSkip(mark, lines, 1);
    titles := ParseFromKeeps(mark, lines, i, [], [], NonBlank(mark, lines[1..]));
  }
}
