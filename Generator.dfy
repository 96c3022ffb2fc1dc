/**
 * The pure parts of certificate rendering: greedy word wrap of descriptions,
 * the truncation rules for listed items and description lines, and the batch
 * loop. Drawing itself is a parameter (`render`).
 */
module Generator {
  import opened Wrappers
  import opened Strings
  import opened Models
  import Storage

  /** The characters Python's `str.isspace` accepts. */
  predicate IsSpace(c: char) {
    var n := c as int;
    || n == 0x20 || 0x09 <= n <= 0x0D || 0x1C <= n <= 0x1F || n == 0x85 || n == 0xA0
    || n == 0x1680 || 0x2000 <= n <= 0x200A || n == 0x2028 || n == 0x2029
    || n == 0x202F || n == 0x205F || n == 0x3000
  }

  /** A word: non-empty, without whitespace. */
  predicate IsWord(w: string) {
    w != [] && forall i :: 0 <= i < |w| ==> !IsSpace(w[i])
  }

  predicate AllWords(ws: seq<string>) {
    forall i :: 0 <= i < |ws| ==> IsWord(ws[i])
  }

  /** The length of the run of non-space characters that ends `s`. */
  function TrailingWordLength(s: string): (n: nat)
    ensures n <= |s|
    ensures s != [] && !IsSpace(s[|s| - 1]) ==> n >= 1
    ensures forall i :: |s| - n <= i < |s| ==> !IsSpace(s[i])
  {
    if s == [] || IsSpace(s[|s| - 1]) then 0 else 1 + TrailingWordLength(s[..|s| - 1])
  }

  /** `s.split()`: the maximal runs of non-space characters, in order. */
  function SplitWords(s: string): (words: seq<string>)
    ensures AllWords(words)
    decreases |s|
  {
    if s == [] then []
    else if IsSpace(s[|s| - 1]) then SplitWords(s[..|s| - 1])
    else
      var n := TrailingWordLength(s);
      var w := s[|s| - n..];
      assert IsWord(w) by {
        forall i | 0 <= i < |w| ensures !IsSpace(w[i]) {
          assert w[i] == s[|s| - n + i];
        }
      }
      SplitWords(s[..|s| - n]) + [w]
  }

  /** Empty or whitespace-only text has no words, and every other text has some. */
  lemma {:induction false} SplitWordsEmpty(s: string)
    ensures SplitWords(s) == [] <==> forall i :: 0 <= i < |s| ==> IsSpace(s[i])
  {
    if s != [] && IsSpace(s[|s| - 1]) {
      var init := s[..|s| - 1];
      SplitWordsEmpty(init);
      assert forall i :: 0 <= i < |init| ==> init[i] == s[i];
    }
  }

  lemma {:induction false} TrailingWordLengthAfterSpace(a: string, w: string)
    requires forall i :: 0 <= i < |w| ==> !IsSpace(w[i])
    ensures TrailingWordLength(a + [' '] + w) == |w|
  {
    var s := a + [' '] + w;
    if w != [] {
      var w' := w[..|w| - 1];
      assert s[..|s| - 1] == a + [' '] + w';
      TrailingWordLengthAfterSpace(a, w');
    }
  }

  lemma {:induction false} TrailingWordLengthOfWord(w: string)
    requires forall i :: 0 <= i < |w| ==> !IsSpace(w[i])
    ensures TrailingWordLength(w) == |w|
  {
    if w != [] {
      TrailingWordLengthOfWord(w[..|w| - 1]);
    }
  }

  lemma SplitWordsAppend(a: string, w: string)
    requires IsWord(w)
    ensures SplitWords(a + [' '] + w) == SplitWords(a) + [w]
  {
    var s := a + [' '] + w;
    TrailingWordLengthAfterSpace(a, w);
    assert s[..|s| - |w|] == a + [' '];
    assert s[|s| - |w|..] == w;
    assert (a + [' '])[..|a|] == a;
  }

  /** Splitting words joined by single spaces gives the words back. */
  lemma {:induction false} SplitJoinWords(ws: seq<string>)
    requires AllWords(ws)
    ensures SplitWords(Join(" ", ws)) == ws
  {
    if |ws| == 1 {
      TrailingWordLengthOfWord(ws[0]);
      assert ws[0][..0] == [];
      assert ws[0][0..] == ws[0];
    } else if |ws| > 1 {
      var init := ws[..|ws| - 1];
      SplitJoinWords(init);
      SplitWordsAppend(Join(" ", init), ws[|ws| - 1]);
      assert ws == init + [ws[|ws| - 1]];
    }
  }

  /** One line of output: its words joined by single spaces. */
  function LineOf(group: seq<string>): string {
    Join(" ", group)
  }

  function Lines(groups: seq<seq<string>>): (lines: seq<string>)
    ensures |lines| == |groups|
    ensures forall i :: 0 <= i < |groups| ==> lines[i] == LineOf(groups[i])
  {
    seq(|groups|, i requires 0 <= i < |groups| => LineOf(groups[i]))
  }

  function Flatten(groups: seq<seq<string>>): seq<string> {
    if groups == [] then [] else Flatten(groups[..|groups| - 1]) + groups[|groups| - 1]
  }

  lemma FlattenAppend(groups: seq<seq<string>>, g: seq<string>)
    ensures Flatten(groups + [g]) == Flatten(groups) + g
  {
    assert (groups + [g])[..|groups|] == groups;
  }

  /** The loop state of the wrapping loop: finished lines, the line being built, and its running count. */
  datatype WrapState = WrapState(done: seq<seq<string>>, current: seq<string>, currentLength: int)

  /**
   * One iteration: the word joins the current line while the running count plus the
   * word plus one stays within `maxChars`; otherwise the current line (if any) is
   * closed and the word starts a new one, the count restarting at the word's length.
   */
  function Step(st: WrapState, word: string, maxChars: int): WrapState {
    if st.currentLength + |word| + 1 <= maxChars then
      WrapState(st.done, st.current + [word], st.currentLength + |word| + 1)
    else
      WrapState(if st.current != [] then st.done + [st.current] else st.done, [word], |word|)
  }

  function Fold(words: seq<string>, maxChars: int): WrapState
    decreases |words|
  {
    if words == [] then WrapState([], [], 0)
    else Step(Fold(words[..|words| - 1], maxChars), words[|words| - 1], maxChars)
  }

  function Groups(st: WrapState): seq<seq<string>> {
    if st.current != [] then st.done + [st.current] else st.done
  }

  /** The words of each output line of `_wrap_text`. */
  function WrapGroups(words: seq<string>, maxChars: int): seq<seq<string>> {
    Groups(Fold(words, maxChars))
  }

  /** The output of `_wrap_text` on the given words. */
  function WrapLines(words: seq<string>, maxChars: int): seq<string> {
    Lines(WrapGroups(words, maxChars))
  }

  /** No group is empty; a group of two or more words fits within `maxChars`. */
  predicate Bounded(gs: seq<seq<string>>, maxChars: int) {
    forall i :: 0 <= i < |gs| ==> gs[i] != [] && (|gs[i]| >= 2 ==> |LineOf(gs[i])| <= maxChars)
  }

  /**
   * A line is closed only when the next word did not fit: appending it would
   * reach `maxChars` on the first line and exceed it on every later one.
   */
  predicate Greedy(gs: seq<seq<string>>, maxChars: int)
    requires Bounded(gs, maxChars)
  {
    forall i :: 1 <= i < |gs| ==>
      |LineOf(gs[i - 1])| + 1 + |gs[i][0]| >= maxChars
      && (i >= 2 ==> |LineOf(gs[i - 1])| + 1 + |gs[i][0]| > maxChars)
  }

  ghost predicate Inv(st: WrapState, words: seq<string>, maxChars: int) {
    && Flatten(st.done) + st.current == words
    && (st.current == [] <==> words == [])
    && (st.current == [] ==> st.done == [] && st.currentLength == 0)
    && (st.current != [] ==> |LineOf(st.current)| <= st.currentLength <= |LineOf(st.current)| + 1)
    && (st.done != [] ==> st.currentLength == |LineOf(st.current)|)
    && Bounded(Groups(st), maxChars)
    && Greedy(Groups(st), maxChars)
  }

  /** Growing the last group keeps the bounds when the grown group fits, and keeps greediness. */
  lemma ExtendLastGroup(gs: seq<seq<string>>, g: seq<string>, w: string, maxChars: int)
    requires Bounded(gs + [g], maxChars) && Greedy(gs + [g], maxChars)
    requires |LineOf(g + [w])| <= maxChars
    ensures Bounded(gs + [g + [w]], maxChars) && Greedy(gs + [g + [w]], maxChars)
  {
    var a, b := gs + [g], gs + [g + [w]];
    assert forall i :: 0 <= i < |gs| ==> a[i] == b[i] == gs[i];
    assert a[|gs|] == g && b[|gs|] == g + [w];
    assert Bounded(b, maxChars);
    forall i | 1 <= i < |b|
      ensures |LineOf(b[i - 1])| + 1 + |b[i][0]| >= maxChars
      ensures i >= 2 ==> |LineOf(b[i - 1])| + 1 + |b[i][0]| > maxChars
    {
      assert b[i - 1] == a[i - 1];
      assert b[i][0] == a[i][0];
    }
  }

  /** Starting a new group after the last one keeps greediness when the new word did not fit. */
  lemma AppendGroup(gs: seq<seq<string>>, w: string, maxChars: int)
    requires gs != [] && Bounded(gs, maxChars) && Greedy(gs, maxChars)
    requires |LineOf(gs[|gs| - 1])| + 1 + |w| >= maxChars
    requires |gs| >= 2 ==> |LineOf(gs[|gs| - 1])| + 1 + |w| > maxChars
    ensures Bounded(gs + [[w]], maxChars) && Greedy(gs + [[w]], maxChars)
  {
    var b := gs + [[w]];
    assert forall i :: 0 <= i < |gs| ==> b[i] == gs[i];
    assert b[|gs|] == [w];
    assert Bounded(b, maxChars);
    forall i | 1 <= i < |b|
      ensures |LineOf(b[i - 1])| + 1 + |b[i][0]| >= maxChars
      ensures i >= 2 ==> |LineOf(b[i - 1])| + 1 + |b[i][0]| > maxChars
    {
      if i < |gs| {
        assert b[i - 1] == gs[i - 1] && b[i] == gs[i];
      }
    }
  }

  lemma StepFitsInv(st: WrapState, words: seq<string>, w: string, maxChars: int)
    requires Inv(st, words, maxChars) && st.current != []
    requires st.currentLength + |w| + 1 <= maxChars
    ensures Inv(Step(st, w, maxChars), words + [w], maxChars)
  {
    JoinAppend(" ", st.current, w);
    ExtendLastGroup(st.done, st.current, w, maxChars);
    assert Flatten(st.done) + (st.current + [w]) == words + [w];
  }

  lemma StepBreaksInv(st: WrapState, words: seq<string>, w: string, maxChars: int)
    requires Inv(st, words, maxChars) && st.current != []
    requires st.currentLength + |w| + 1 > maxChars
    ensures Inv(Step(st, w, maxChars), words + [w], maxChars)
  {
    var gs := st.done + [st.current];
    FlattenAppend(st.done, st.current);
    assert gs[|gs| - 1] == st.current;
    AppendGroup(gs, w, maxChars);
  }

  lemma StepInv(st: WrapState, words: seq<string>, w: string, maxChars: int)
    requires Inv(st, words, maxChars)
    ensures Inv(Step(st, w, maxChars), words + [w], maxChars)
  {
    if st.current == [] {
      var st' := Step(st, w, maxChars);
      assert st'.done == [] && st'.current == [w];
      assert Groups(st') == [[w]];
      assert LineOf([w]) == w;
    } else if st.currentLength + |w| + 1 <= maxChars {
      StepFitsInv(st, words, w, maxChars);
    } else {
      StepBreaksInv(st, words, w, maxChars);
    }
  }

  lemma {:induction false} FoldInv(words: seq<string>, maxChars: int)
    ensures Inv(Fold(words, maxChars), words, maxChars)
  {
    if words != [] {
      var init, last := words[..|words| - 1], words[|words| - 1];
      assert init + [last] == words;
      var st := Fold(init, maxChars);
      assert Fold(words, maxChars) == Step(st, last, maxChars);
      FoldInv(init, maxChars);
      StepInv(st, init, last, maxChars);
    }
  }

  /** The wrapped groups hold the words, in order. */
  lemma WrapGroupsFlatten(words: seq<string>, maxChars: int)
    ensures Flatten(WrapGroups(words, maxChars)) == words
  {
    var st := Fold(words, maxChars);
    FoldInv(words, maxChars);
    if st.current != [] {
      FlattenAppend(st.done, st.current);
    }
  }

  lemma LinesAppend(gs: seq<seq<string>>, g: seq<string>)
    ensures Lines(gs + [g]) == Lines(gs) + [LineOf(g)]
  {
    var a, b := Lines(gs + [g]), Lines(gs) + [LineOf(g)];
    assert |a| == |b|;
    forall i | 0 <= i < |a| ensures a[i] == b[i] {
      if i < |gs| {
        assert (gs + [g])[i] == gs[i];
      }
    }
  }

  lemma {:induction false} JoinLines(gs: seq<seq<string>>)
    requires forall i :: 0 <= i < |gs| ==> gs[i] != []
    ensures Join(" ", Lines(gs)) == Join(" ", Flatten(gs))
  {
    if |gs| == 1 {
      assert gs[..0] == [];
      assert Flatten(gs) == gs[0];
      assert Lines(gs) == [LineOf(gs[0])];
    } else if |gs| > 1 {
      var init := gs[..|gs| - 1];
      var last := gs[|gs| - 1];
      assert gs == init + [last];
      JoinLines(init);
      LinesAppend(init, last);
      JoinAppend(" ", Lines(init), LineOf(last));
      FlattenAppend(init, last);
      FlattenNonEmpty(init);
      JoinConcat(" ", Flatten(init), last);
    }
  }

  lemma {:induction false} FlattenNonEmpty(gs: seq<seq<string>>)
    requires gs != [] && forall i :: 0 <= i < |gs| ==> gs[i] != []
    ensures Flatten(gs) != []
  {
    assert |Flatten(gs)| >= |gs[|gs| - 1]|;
  }

  /** Wrapping keeps the words: re-splitting all lines joined by spaces gives the input words. */
  lemma WrapPreservesWords(words: seq<string>, maxChars: int)
    requires AllWords(words)
    ensures SplitWords(Join(" ", WrapLines(words, maxChars))) == words
  {
    FoldInv(words, maxChars);
    WrapGroupsFlatten(words, maxChars);
    JoinLines(WrapGroups(words, maxChars));
    SplitJoinWords(words);
  }

  lemma GroupOfWords(words: seq<string>, maxChars: int, i: int)
    requires AllWords(words) && 0 <= i < |WrapGroups(words, maxChars)|
    ensures AllWords(WrapGroups(words, maxChars)[i])
    ensures SplitWords(WrapLines(words, maxChars)[i]) == WrapGroups(words, maxChars)[i]
  {
    var gs := WrapGroups(words, maxChars);
    WrapGroupsFlatten(words, maxChars);
    FlattenElements(gs, i);
    SplitJoinWords(gs[i]);
  }

  lemma {:induction false} FlattenElements(gs: seq<seq<string>>, i: int)
    requires 0 <= i < |gs|
    ensures forall j :: 0 <= j < |gs[i]| ==> gs[i][j] in Flatten(gs)
  {
    var init := gs[..|gs| - 1];
    assert Flatten(gs) == Flatten(init) + gs[|gs| - 1];
    if i < |gs| - 1 {
      FlattenElements(init, i);
    } else {
      forall j | 0 <= j < |gs[i]| ensures gs[i][j] in Flatten(gs) {
        assert Flatten(gs)[|Flatten(init)| + j] == gs[i][j];
      }
    }
  }

  /**
   * No line is empty, and a line longer than `maxChars` holds a single word:
   * every line of two or more words fits.
   */
  lemma WrapLineBounds(words: seq<string>, maxChars: int, i: int)
    requires AllWords(words) && 0 <= i < |WrapLines(words, maxChars)|
    ensures WrapLines(words, maxChars)[i] != ""
    ensures |SplitWords(WrapLines(words, maxChars)[i])| >= 2 ==> |WrapLines(words, maxChars)[i]| <= maxChars
  {
    FoldInv(words, maxChars);
    GroupOfWords(words, maxChars, i);
  }

  /**
   * A new line starts only when the next word did not fit: the previous line,
   * a space and the new line's first word reach `maxChars` (after the first
   * line, exceed it).
   */
  lemma WrapIsGreedy(words: seq<string>, maxChars: int, i: int)
    requires AllWords(words) && 1 <= i < |WrapLines(words, maxChars)|
    ensures var lines := WrapLines(words, maxChars);
            SplitWords(lines[i]) != []
            && |lines[i - 1]| + 1 + |SplitWords(lines[i])[0]| >= maxChars
            && (i >= 2 ==> |lines[i - 1]| + 1 + |SplitWords(lines[i])[0]| > maxChars)
  {
    FoldInv(words, maxChars);
    GroupOfWords(words, maxChars, i);
  }

  /** `_wrap_text(text, max_chars)`. */
  method WrapText(text: string, maxChars: int) returns (lines: seq<string>)
    ensures lines == WrapLines(SplitWords(text), maxChars)
    ensures SplitWords(Join(" ", lines)) == SplitWords(text)
    ensures (forall i :: 0 <= i < |text| ==> IsSpace(text[i])) ==> lines == []
  {
    var words := SplitWords(text);
    lines := [];
    var currentLine: seq<string> := [];
    var currentLength := 0;
    ghost var done: seq<seq<string>> := [];
    for i := 0 to |words|
      invariant Fold(words[..i], maxChars) == WrapState(done, currentLine, currentLength)
      invariant lines == Lines(done)
    {
      var word := words[i];
      assert words[..i + 1][..i] == words[..i];
      if currentLength + |word| + 1 <= maxChars {
        currentLine := currentLine + [word];
        currentLength := currentLength + |word| + 1;
      } else {
        if currentLine != [] {
          lines := lines + [Join(" ", currentLine)];
          done := done + [currentLine];
        }
        currentLine := [word];
        currentLength := |word|;
      }
    }
    assert words[..|words|] == words;
    if currentLine != [] {
      lines := lines + [Join(" ", currentLine)];
      done := done + [currentLine];
    }
    WrapPreservesWords(words, maxChars);
    SplitWordsEmpty(text);
  }

  const DescriptionWidth := 60
  const MaxDescriptionLines := 3
  const MaxListedItems := 5

  /** The description lines drawn: a present, non-empty description wrapped at 60, at most 3 lines. */
  method DescriptionLines(description: Option<string>) returns (lines: seq<string>)
    ensures |lines| <= MaxDescriptionLines
    ensures description.None? || description.value == "" ==> lines == []
    ensures description.Some? && description.value != "" ==>
              var all := WrapLines(SplitWords(description.value), DescriptionWidth);
              lines == all[..if |all| < MaxDescriptionLines then |all| else MaxDescriptionLines]
  {
    if description.None? || description.value == "" {
      return [];
    }
    var all := WrapText(description.value, DescriptionWidth);
    lines := if |all| < MaxDescriptionLines then all else all[..MaxDescriptionLines];
  }

  /** The items listed on a certificate, and the "... and N more" line when some are left out. */
  datatype ItemsListing = ItemsListing(shown: seq<string>, more: Option<string>)

  function ListItems(items: seq<string>): (r: ItemsListing)
    ensures |r.shown| == (if |items| < MaxListedItems then |items| else MaxListedItems)
    ensures r.shown == items[..|r.shown|]
    ensures r.more.Some? <==> |items| > MaxListedItems
    ensures r.more.Some? ==> r.more.value == "... and " + Decimal(|items| - MaxListedItems) + " more"
  {
    var n := if |items| < MaxListedItems then |items| else MaxListedItems;
    ItemsListing(
      items[..n],
      if |items| > MaxListedItems then Some("... and " + Decimal(|items| - MaxListedItems) + " more") else None)
  }

  /** The number in the "more" line accounts exactly for the items not shown. */
  lemma ListItemsAccountsForAll(items: seq<string>)
    requires |items| > MaxListedItems
    ensures var r := ListItems(items);
            var line := r.more.value;
            |line| > 13 && AllDigits(line[8..|line| - 5])
            && |r.shown| + ParseDecimal(line[8..|line| - 5]) == |items|
  {
    var r := ListItems(items);
    var d := Decimal(|items| - MaxListedItems);
    var line := r.more.value;
    assert line == "... and " + d + " more";
    assert line[8..|line| - 5] == d;
    DecimalRoundTrip(|items| - MaxListedItems);
  }

  /** `generate_batch_certificates`: renders each request in order, stopping at the first failure. */
  method GenerateBatch(requests: seq<CertificateRequest>, render: CertificateRequest -> Option<Storage.Bytes>)
    returns (pdfs: Option<seq<Storage.Bytes>>)
    ensures pdfs.Some? <==> forall i :: 0 <= i < |requests| ==> render(requests[i]).Some?
    ensures pdfs.Some? ==> |pdfs.value| == |requests|
    ensures pdfs.Some? ==> forall i :: 0 <= i < |requests| ==> pdfs.value[i] == render(requests[i]).value
  {
    var certificates: seq<Storage.Bytes> := [];
    for i := 0 to |requests|
      invariant |certificates| == i
      invariant forall j :: 0 <= j < i ==> render(requests[j]).Some? && certificates[j] == render(requests[j]).value
    {
      var pdf := render(requests[i]);
      if pdf.None? {
        return None;
      }
      certificates := certificates + [pdf.value];
    }
    pdfs := Some(certificates);
  }
}
