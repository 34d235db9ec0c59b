/** Quick-reply options read out of an assistant message: a numbered list
    after a "[선택]" header, or else the numbered lines near the end. */
module QuickReply {
  import opened Wrappers
  import opened Text

  /** `QuickReplyOption`: the button label (`text`) and the number sent back. */
  datatype Reply = Reply(text: string, value: string)

  const SelectTag: string := "[선택]"

  /** The lines of the message; line breaks are `\n` alone, so a `\r` stays
      at the end of its line. */
  function Lines(content: string): seq<string> {
    Split(content, '\n')
  }

  /** The length of the number at the front of a line. */
  function NumberEnd(line: string): (k: nat)
    ensures k <= |line| && (k == |line| || !IsDigit(line[k]))
  {
    DigitPrefix(line)
  }

  /** One item of the list after the header, `\d+\.\s+[^\n]+`, spanning a
      whole line: a number, a dot, white space and at least one more
      character. */
  predicate IsItem(line: string) {
    var k := NumberEnd(line);
    0 < k && k + 3 <= |line| && line[k] == '.' && IsSpace(line[k + 1])
  }

  /** A line of the fallback scan, `^(\d+)\.\s+(.+)$`: a number, a dot,
      white space, then text that, after the greedy white space, holds no
      line terminator (`.` does not match one). */
  predicate IsListed(line: string) {
    var k := NumberEnd(line);
    && 0 < k && k + 2 <= |line| && line[k] == '.' && IsSpace(line[k + 1])
    && var rest := line[k + 1..];
       var text := TrimStart(rest);
       if text != [] then forall i :: 0 <= i < |text| ==> !IsLineTerminator(text[i])
       else |rest| >= 2 && !IsLineTerminator(rest[|rest| - 1])
  }

  /** Both patterns take the number as the value and the trimmed rest of the
      line as the label. */
  function ReplyOf(line: string): (r: Reply)
    requires 0 < NumberEnd(line) < |line|
    ensures r.value != [] && AllDigits(r.value) && Trimmed(r.text)
  {
    var k := NumberEnd(line);
    Reply(Trim(line[k + 1..]), line[..k])
  }

  /** The value is the whole leading run of digits, which an item line ends
      with its dot, and the label is the rest of the line after the
      character that ends the run, trimmed. */
  lemma ReplyOfSplits(line: string)
    requires 0 < NumberEnd(line) < |line|
    ensures var r := ReplyOf(line);
      && |r.value| == NumberEnd(line) && line[..|r.value|] == r.value && !IsDigit(line[|r.value|])
      && (IsItem(line) ==> line[|r.value|] == '.')
      && r.text == Trim(line[|r.value| + 1..])
  {
  }

  /** The fallback accepts only lines the item pattern accepts too. */
  lemma ListedIsItem(line: string)
    requires IsListed(line)
    ensures IsItem(line)
  {
  }

  /** No white space at either end. */
  predicate Trimmed(s: string) {
    s == [] || (!IsSpace(s[0]) && !IsSpace(s[|s| - 1]))
  }

  /** Trimming leaves a trimmed string alone. */
  lemma TrimKeepsTrimmed(s: string)
    requires Trimmed(s)
    ensures Trim(s) == s
  {
    if s != [] {
      assert TrimStart(s) == s;
      assert TrimEnd(s) == s;
    }
  }

  /** The first line, from `from` on, that holds the header tag and is
      followed by an item line: where the first-pattern regex matches. */
  function HeaderLine(lines: seq<string>, from: nat): (r: Option<nat>)
    requires from <= |lines|
    ensures r.Some? ==>
      && from <= r.value && r.value + 1 < |lines|
      && Contains(lines[r.value], SelectTag) && IsItem(lines[r.value + 1])
    ensures r.Some? ==> forall i :: from <= i < r.value ==>
      !(Contains(lines[i], SelectTag) && IsItem(lines[i + 1]))
    ensures r.None? ==> forall i :: from <= i && i + 1 < |lines| ==>
      !(Contains(lines[i], SelectTag) && IsItem(lines[i + 1]))
    decreases |lines| - from
  {
    if from == |lines| then None
    else if Contains(lines[from], SelectTag) && from + 1 < |lines| && IsItem(lines[from + 1]) then Some(from)
    else HeaderLine(lines, from + 1)
  }

  /** The run of item lines starting at `from`. */
  function ItemRun(lines: seq<string>, from: nat): (r: seq<Reply>)
    requires from <= |lines|
    ensures |r| <= |lines| - from
    decreases |lines| - from
  {
    if from < |lines| && IsItem(lines[from]) then [ReplyOf(lines[from])] + ItemRun(lines, from + 1)
    else []
  }

  /** The fallback's matches among `lines`, in line order. */
  function ListedIn(lines: seq<string>): (r: seq<Reply>)
    ensures |r| <= |lines|
  {
    if lines == [] then []
    else
      ListedIn(lines[..|lines| - 1])
      + if IsListed(lines[|lines| - 1]) then [ReplyOf(lines[|lines| - 1])] else []
  }

  /** `lines.slice(-10)`. */
  function LastTen(lines: seq<string>): (r: seq<string>)
    ensures |r| <= 10 && |r| <= |lines| && r == lines[|lines| - |r|..]
    ensures |lines| >= 10 ==> |r| == 10
  {
    if |lines| > 10 then lines[|lines| - 10..] else lines
  }

  /** What `parseQuickReplyOptions` returns. */
  function QuickReplies(content: string): seq<Reply> {
    RepliesIn(Lines(content))
  }

  /** The options read from the lines of a message. */
  function RepliesIn(lines: seq<string>): seq<Reply> {
    match HeaderLine(lines, 0)
    case Some(i) => ItemRun(lines, i + 1)
    case None =>
      var items := ListedIn(LastTen(lines));
      if |items| >= 2 then items else []
  }

  /** `parseQuickReplyOptions`: search for the header, collect its items;
      failing that, scan the last ten lines and keep the matches if there are
      at least two. */
  method ParseQuickReplyOptions(content: string) returns (options: seq<Reply>)
    ensures options == QuickReplies(content)
  {
    var lines := Lines(content);
    var i := 0;
    while i < |lines| && !(Contains(lines[i], SelectTag) && i + 1 < |lines| && IsItem(lines[i + 1]))
      invariant i <= |lines| && HeaderLine(lines, 0) == HeaderLine(lines, i)
    {
      i := i + 1;
    }
    if i < |lines| {
      assert HeaderLine(lines, 0) == Some(i);
      options := CollectItems(lines, i + 1);
      return;
    }
    assert HeaderLine(lines, 0) == None;
    var numberedItems := ScanLastLines(LastTen(lines));
    if |numberedItems| >= 2 {
      return numberedItems;
    }
    return [];
  }

  /** The item lines under the header, collected one by one. */
  method CollectItems(lines: seq<string>, from: nat) returns (options: seq<Reply>)
    requires from <= |lines|
    ensures options == ItemRun(lines, from)
  {
    options := [];
    var j := from;
    while j < |lines| && IsItem(lines[j])
      invariant from <= j <= |lines|
      invariant options + ItemRun(lines, j) == ItemRun(lines, from)
      decreases |lines| - j
    {
      ItemRunStep(lines, j, options);
      options := options + [ReplyOf(lines[j])];
      j := j + 1;
    }
    assert ItemRun(lines, j) == [];
    assert options + [] == options;
  }

  /** The fallback scan over the last lines, keeping the matching ones in order. */
  method ScanLastLines(lastLines: seq<string>) returns (numberedItems: seq<Reply>)
    ensures numberedItems == ListedIn(lastLines)
  {
    numberedItems := [];
    for k := 0 to |lastLines|
      invariant numberedItems == ListedIn(lastLines[..k])
    {
      ListedInStep(lastLines, k);
      if IsListed(lastLines[k]) {
        numberedItems := numberedItems + [ReplyOf(lastLines[k])];
      }
    }
    assert lastLines[..|lastLines|] == lastLines;
  }

  lemma ItemRunStep(lines: seq<string>, j: nat, options: seq<Reply>)
    requires j < |lines| && IsItem(lines[j])
    ensures options + ItemRun(lines, j) == (options + [ReplyOf(lines[j])]) + ItemRun(lines, j + 1)
  {
    assert ItemRun(lines, j) == [ReplyOf(lines[j])] + ItemRun(lines, j + 1);
  }

  lemma ListedInStep(lines: seq<string>, k: nat)
    requires k < |lines|
    ensures ListedIn(lines[..k + 1]) == ListedIn(lines[..k]) + if IsListed(lines[k]) then [ReplyOf(lines[k])] else []
  {
    assert lines[..k + 1][..k] == lines[..k];
  }

  // ---------------------------------------------------------------------
  // Properties

  /** Every option's value is a run of digits and its label is trimmed. */
  lemma {:induction false} RepliesAreNumbered(content: string)
    ensures forall r :: r in QuickReplies(content) ==> r.value != [] && AllDigits(r.value) && Trimmed(r.text)
  {
    var lines := Lines(content);
    assert QuickReplies(content) == RepliesIn(lines);
    match HeaderLine(lines, 0)
    case Some(i) => ItemRunAreNumbered(lines, i + 1);
    case None => ListedInAreNumbered(LastTen(lines));
  }

  lemma {:induction false} ItemRunAreNumbered(lines: seq<string>, from: nat)
    requires from <= |lines|
    ensures forall r :: r in ItemRun(lines, from) ==> r.value != [] && AllDigits(r.value) && Trimmed(r.text)
    decreases |lines| - from
  {
    if from < |lines| && IsItem(lines[from]) {
      ItemRunAreNumbered(lines, from + 1);
    }
  }

  lemma {:induction false} ListedInAreNumbered(lines: seq<string>)
    ensures forall r :: r in ListedIn(lines) ==> r.value != [] && AllDigits(r.value) && Trimmed(r.text)
  {
    if lines != [] {
      ListedInAreNumbered(lines[..|lines| - 1]);
    }
  }

  /** A header with an item line under it decides the result: exactly its
      run of item lines, never empty. */
  lemma HeaderWins(lines: seq<string>)
    requires HeaderLine(lines, 0).Some?
    ensures RepliesIn(lines) == ItemRun(lines, HeaderLine(lines, 0).value + 1)
    ensures RepliesIn(lines) != []
  {
    var i := HeaderLine(lines, 0).value;
    ItemRunNonEmpty(lines, i + 1);
  }

  lemma ItemRunNonEmpty(lines: seq<string>, j: nat)
    requires j < |lines| && IsItem(lines[j])
    ensures ItemRun(lines, j) != []
  {
  }

  /** Without a header the fallback returns nothing or between two and ten
      options, all from the last ten lines. */
  lemma FallbackShape(lines: seq<string>)
    requires HeaderLine(lines, 0).None?
    ensures RepliesIn(lines) == [] || 2 <= |RepliesIn(lines)| <= 10
    ensures RepliesIn(lines) != [] ==> RepliesIn(lines) == ListedIn(LastTen(lines))
  {
  }

  // ---------------------------------------------------------------------
  // A menu written in the documented form parses back to its options

  /** An option that can be written as the line `value. label`. */
  predicate Writable(r: Reply) {
    r.value != [] && AllDigits(r.value) && r.text != [] && '\n' !in r.text && Trimmed(r.text)
  }

  function ItemText(r: Reply): string {
    r.value + ". " + r.text
  }

  /** `[선택] question` and then one `value. label` line per option. */
  function Menu(question: string, options: seq<Reply>): string {
    SelectTag + question + "\n" + Join(seq(|options|, i requires 0 <= i < |options| => ItemText(options[i])), "\n")
  }

  lemma {:induction false} SplitWhole(a: string, sep: char)
    requires sep !in a
    ensures Split(a, sep) == [a]
  {
    if a != [] {
      SplitWhole(a[1..], sep);
      assert [a[0]] + a[1..] == a;
    }
  }

  lemma {:induction false} SplitAfter(a: string, sep: char, b: string)
    requires sep !in a
    ensures Split(a + [sep] + b, sep) == [a] + Split(b, sep)
  {
    if a == [] {
      assert a + [sep] + b == [sep] + b;
      assert ([sep] + b)[1..] == b;
    } else {
      assert (a + [sep] + b)[1..] == a[1..] + [sep] + b;
      SplitAfter(a[1..], sep, b);
      assert [a[0]] + a[1..] == a;
      assert ([a[1..]] + Split(b, sep))[1..] == Split(b, sep);
    }
  }

  lemma {:induction false} SplitJoin(parts: seq<string>, sep: char)
    requires parts != [] && forall i :: 0 <= i < |parts| ==> sep !in parts[i]
    ensures Split(Join(parts, [sep]), sep) == parts
  {
    if |parts| == 1 {
      SplitWhole(parts[0], sep);
    } else {
      SplitJoin(parts[1..], sep);
      SplitAfter(parts[0], sep, Join(parts[1..], [sep]));
      assert [parts[0]] + parts[1..] == parts;
    }
  }

  lemma {:induction false} DigitPrefixOf(v: string, rest: string)
    requires AllDigits(v) && (rest == [] || !IsDigit(rest[0]))
    ensures DigitPrefix(v + rest) == |v|
  {
    if v != [] {
      assert (v + rest)[1..] == v[1..] + rest;
      DigitPrefixOf(v[1..], rest);
    }
  }

  /** White space in front of a string is trimmed away. */
  lemma TrimAfterSpace(c: char, t: string)
    requires IsSpace(c)
    ensures Trim([c] + t) == Trim(t)
  {
    assert ([c] + t)[1..] == t;
  }

  lemma ItemLineOf(r: Reply)
    requires Writable(r)
    ensures IsItem(ItemText(r)) && ReplyOf(ItemText(r)) == r
    ensures '\n' !in ItemText(r)
  {
    ItemLineIsItem(r);
    ItemLineReply(r);
    ItemLineNoBreak(r);
  }

  lemma ItemLineIsItem(r: Reply)
    requires Writable(r)
    ensures NumberEnd(ItemText(r)) == |r.value| && IsItem(ItemText(r))
  {
    ItemLineShape(r);
  }

  lemma ItemLineReply(r: Reply)
    requires Writable(r) && NumberEnd(ItemText(r)) == |r.value|
    ensures ReplyOf(ItemText(r)) == r
  {
    var line := ItemText(r);
    var k := |r.value|;
    ItemLineShape(r);
    LabelAfterSpace(r.text);
    assert ReplyOf(line) == Reply(Trim([' '] + r.text), r.value);
  }

  /** The label after the item's space reads back trimmed as itself. */
  lemma LabelAfterSpace(t: string)
    requires Trimmed(t)
    ensures Trim([' '] + t) == t
  {
    TrimAfterSpace(' ', t);
    TrimKeepsTrimmed(t);
  }

  /** Where the parts of `value. label` sit in the line. */
  lemma ItemLineShape(r: Reply)
    requires Writable(r)
    ensures var line, k := ItemText(r), |r.value|;
      && DigitPrefix(line) == k && k + 2 <= |line|
      && line[k] == '.' && line[k + 1] == ' '
      && line[..k] == r.value && line[k + 1..] == [' '] + r.text
  {
    var line := ItemText(r);
    var k := |r.value|;
    DigitPrefixOf(r.value, ". " + r.text);
    assert line == r.value + (". " + r.text);
  }

  lemma ItemLineNoBreak(r: Reply)
    requires Writable(r)
    ensures '\n' !in ItemText(r)
  {
    var line := ItemText(r);
    var k := |r.value|;
    forall i | 0 <= i < |line|
      ensures line[i] != '\n'
    {
      if i < k {
        assert line[i] == r.value[i] && IsDigit(r.value[i]);
      } else if k + 2 <= i {
        assert line[i] == r.text[i - k - 2];
      }
    }
  }

  /** The item lines of a menu each parse back to their option. */
  lemma {:induction false} ItemTextsParse(options: seq<Reply>, items: seq<string>)
    requires |items| == |options|
    requires forall i :: 0 <= i < |options| ==> Writable(options[i]) && items[i] == ItemText(options[i])
    ensures ParsesTo(items, options)
    decreases |items|
  {
    if items != [] {
      ItemLineOf(options[0]);
      var items', options' := items[1..], options[1..];
      forall i | 0 <= i < |options'|
        ensures Writable(options'[i]) && items'[i] == ItemText(options'[i])
      {
        assert options'[i] == options[i + 1] && items'[i] == items[i + 1];
      }
      ItemTextsParse(options', items');
    }
  }

  /** No item line of a menu holds a line break. */
  lemma ItemTextsOneLine(options: seq<Reply>, items: seq<string>)
    requires |items| == |options|
    requires forall i :: 0 <= i < |options| ==> Writable(options[i]) && items[i] == ItemText(options[i])
    ensures forall i :: 0 <= i < |items| ==> '\n' !in items[i]
  {
    forall i | 0 <= i < |items|
      ensures '\n' !in items[i]
    {
      ItemLineNoBreak(options[i]);
    }
  }

  /** Lines that each parse to the matching option, one after the other. */
  predicate ParsesTo(items: seq<string>, options: seq<Reply>)
    decreases |items|
  {
    && |items| == |options|
    && (items != [] ==>
          IsItem(items[0]) && ReplyOf(items[0]) == options[0] && ParsesTo(items[1..], options[1..]))
  }

  /** A block of item lines that runs to the end is read as one run. */
  lemma {:induction false} RunToEnd(lines: seq<string>, from: nat, options: seq<Reply>)
    requires from <= |lines| && ParsesTo(lines[from..], options)
    ensures ItemRun(lines, from) == options
    decreases |lines| - from
  {
    if from < |lines| {
      assert lines[from..][0] == lines[from] && lines[from..][1..] == lines[from + 1..];
      RunToEnd(lines, from + 1, options[1..]);
      RunStep(lines, from, options);
    }
  }

  /** An item line in front of a run that reads as the remaining options
      reads as all of them. */
  lemma RunStep(lines: seq<string>, from: nat, options: seq<Reply>)
    requires from < |lines| && options != [] && IsItem(lines[from]) && ReplyOf(lines[from]) == options[0]
    requires ItemRun(lines, from + 1) == options[1..]
    ensures ItemRun(lines, from) == options
  {
    assert ItemRun(lines, from) == [ReplyOf(lines[from])] + ItemRun(lines, from + 1);
    assert [options[0]] + options[1..] == options;
  }

  /** The lines of a menu: the header line, then one line per option. */
  lemma MenuLines(question: string, options: seq<Reply>, items: seq<string>)
    requires '\n' !in question && options != []
    requires forall i :: 0 <= i < |options| ==> Writable(options[i])
    requires items == seq(|options|, i requires 0 <= i < |options| => ItemText(options[i]))
    ensures Lines(Menu(question, options)) == [SelectTag + question] + items
  {
    ItemTextsOneLine(options, items);
    var header := SelectTag + question;
    assert '\n' !in header by {
      assert forall i :: 0 <= i < |SelectTag| ==> SelectTag[i] != '\n';
    }
    SplitJoin(items, '\n');
    SplitAfter(header, '\n', Join(items, "\n"));
    assert Menu(question, options) == header + ['\n'] + Join(items, "\n");
  }

  /** A message in the documented form, `[선택] question` followed by one
      `N. label` line per option, yields exactly those options. */
  lemma MenuRoundTrip(question: string, options: seq<Reply>)
    requires '\n' !in question && options != []
    requires forall i :: 0 <= i < |options| ==> Writable(options[i])
    ensures QuickReplies(Menu(question, options)) == options
  {
    var items := seq(|options|, i requires 0 <= i < |options| => ItemText(options[i]));
    var header := SelectTag + question;
    MenuLines(question, options, items);
    ItemTextsParse(options, items);
    ContainsAffixes(SelectTag, question);
    HeaderThenItems(header, items, options);
  }

  /** A header line followed by item lines that run to the end reads as
      those items. */
  lemma HeaderThenItems(header: string, items: seq<string>, options: seq<Reply>)
    requires Contains(header, SelectTag) && options != [] && ParsesTo(items, options)
    ensures RepliesIn([header] + items) == options
  {
    var lines := [header] + items;
    assert lines[1] == items[0] && IsItem(items[0]);
    assert HeaderLine(lines, 0) == Some(0);
    assert lines[1..] == items;
    RunToEnd(lines, 1, options);
  }
}
