/** The download helpers of the command-line tool: recognising a compressed
    download by its content type and URL, and the pager that lets the user
    pick one JSON file out of the entries of a ZIP archive. */
module DownloadUtils {
  import opened Wrappers
  import opened Strings

  // ---------------------------------------------------------------------
  // isGzip / isZip
  // ---------------------------------------------------------------------

  const OctetStream: string := "application/octet-stream"

  /** At position `i` the URL holds `ext` (such as ".gz"), followed by a '?'
      or by the end of the URL. */
  predicate ExtensionAt(url: string, ext: string, i: nat)
  {
    OccursAt(url, ext, i) && (i + |ext| == |url| || url[i + |ext|] == '?')
  }

  /** The regular-expression search `/\.gz(\?|$)/.test(url)`: try every
      start position from `from` on. */
  function SearchFrom(url: string, ext: string, from: nat): (r: bool)
    ensures r <==> exists i :: from <= i && ExtensionAt(url, ext, i)
    decreases |url| - from
  {
    if from + |ext| > |url| then false
    else if ExtensionAt(url, ext, from) then true
    else
      var r := SearchFrom(url, ext, from + 1);
      assert forall i :: from <= i && ExtensionAt(url, ext, i) ==> from + 1 <= i;
      r
  }

  /** The extension ends the URL's path, with or without a query after it. */
  function HasExtension(url: string, ext: string): (r: bool)
    ensures r <==> exists i :: ExtensionAt(url, ext, i)
  {
    SearchFrom(url, ext, 0)
  }

  /** `isGzip`: a gzip content type, or a generic binary one whose URL names
      a `.gz` file. */
  function IsGzip(contentType: string, url: string): (r: bool)
    ensures contentType == "application/gzip" || contentType == "application/x-gzip" ==> r
    ensures contentType == OctetStream ==> (r <==> exists i :: ExtensionAt(url, ".gz", i))
    ensures contentType !in {"application/gzip", "application/x-gzip", OctetStream} ==> !r
  {
    contentType == "application/gzip" || contentType == "application/x-gzip"
    || (contentType == OctetStream && HasExtension(url, ".gz"))
  }

  /** `isZip`: the ZIP content type, or a generic binary one whose URL names
      a `.zip` file. */
  function IsZip(contentType: string, url: string): (r: bool)
    ensures contentType == "application/zip" ==> r
    ensures contentType == OctetStream ==> (r <==> exists i :: ExtensionAt(url, ".zip", i))
    ensures contentType !in {"application/zip", OctetStream} ==> !r
  {
    contentType == "application/zip" || (contentType == OctetStream && HasExtension(url, ".zip"))
  }

  /** A URL whose path ends with the extension qualifies, with or without a
      query string after it. */
  lemma ExtensionBeforeQuery(path: string, ext: string, query: string)
    ensures HasExtension(path + ext, ext)
    ensures HasExtension(path + ext + "?" + query, ext)
  {
    var url := path + ext + "?" + query;
    assert (path + ext)[|path|..|path| + |ext|] == ext;
    assert url[|path|..|path| + |ext|] == ext;
    assert url[|path| + |ext|] == '?';
    assert ExtensionAt(path + ext, ext, |path|);
    assert ExtensionAt(url, ext, |path|);
  }

  /** Without a query string the extension must end the URL: `data.gzip`
      and `data.gz.bak` are not gzip files. */
  lemma NoQueryMeansSuffix(url: string, ext: string)
    requires forall j :: 0 <= j < |url| ==> url[j] != '?'
    ensures HasExtension(url, ext) <==> |ext| <= |url| && url[|url| - |ext|..] == ext
  {
    if HasExtension(url, ext) {
      var i: nat :| ExtensionAt(url, ext, i);
      assert i + |ext| == |url|;
    }
    if |ext| <= |url| && url[|url| - |ext|..] == ext {
      assert ExtensionAt(url, ext, |url| - |ext|);
    }
  }

  /** The gzip downloads of the tool's test suite: a signed URL with a
      query string after `.gz` is still a gzip download. */
  lemma GzipDownloadExamples()
    ensures IsGzip(OctetStream, "http://example.org/data.gz")
    ensures IsGzip(OctetStream, "http://example.org/data.gz?Expires=123456&mode=true")
  {
    var plain := "http://example.org/data.gz";
    assert |plain| == 26 && plain[23..26] == ".gz";
    assert ExtensionAt(plain, ".gz", 23);
    var signed := "http://example.org/data.gz?Expires=123456&mode=true";
    assert signed[23] == '.' && signed[24] == 'g' && signed[25] == 'z' && signed[26] == '?';
    assert signed[23..26] == ".gz";
    assert ExtensionAt(signed, ".gz", 23);
  }

  /** A longer extension that merely starts with `.gz` is not gzip, and a
      gzip URL is not a ZIP. */
  lemma OtherExtensionExamples()
    ensures !IsGzip(OctetStream, "data.gzip")
    ensures !IsZip(OctetStream, "data.gz")
  {
    var gzip := "data.gzip";
    NoQueryMeansSuffix(gzip, ".gz");
    assert gzip[|gzip| - 3..] == "zip";
    var gz := "data.gz";
    NoQueryMeansSuffix(gz, ".zip");
    assert gz[|gz| - 4..] == "a.gz";
  }

  // ---------------------------------------------------------------------
  // parseInt
  // ---------------------------------------------------------------------

  /** The value of a character as a digit in bases up to 36; 36 for
      anything else. */
  function DigitValue(c: char): nat
  {
    if '0' <= c <= '9' then c as int - '0' as int
    else if 'a' <= c <= 'z' then c as int - 'a' as int + 10
    else if 'A' <= c <= 'Z' then c as int - 'A' as int + 10
    else 36
  }

  predicate RadixDigits(s: string, radix: nat)
  {
    forall i :: 0 <= i < |s| ==> DigitValue(s[i]) < radix
  }

  /** The length of the longest run of `radix` digits `s` starts with. */
  function RunLength(s: string, radix: nat): (n: nat)
    ensures n <= |s| && RadixDigits(s[..n], radix)
    ensures n < |s| ==> radix <= DigitValue(s[n])
  {
    if s == [] || radix <= DigitValue(s[0]) then 0
    else
      var n := 1 + RunLength(s[1..], radix);
      assert s[..n] == [s[0]] + s[1..][..n - 1];
      n
  }

  /** The value of a run of digits, most significant first. */
  function RunValue(s: string, radix: nat): nat
    requires RadixDigits(s, radix)
  {
    if s == [] then 0 else RunValue(s[..|s| - 1], radix) * radix + DigitValue(s[|s| - 1])
  }

  /** The unsigned part of `parseInt`: a "0x" or "0X" prefix selects base
      16, otherwise base 10, and the longest run of digits of that base is
      the value; no digit at all is NaN (`None`). */
  function ParseMagnitude(u: string): (r: Option<int>)
    ensures r.Some? ==> 0 <= r.value
  {
    var hex := 2 <= |u| && u[0] == '0' && (u[1] == 'x' || u[1] == 'X');
    var radix := if hex then 16 else 10;
    var digits := if hex then u[2..] else u;
    var n := RunLength(digits, radix);
    if n == 0 then None else Some(RunValue(digits[..n], radix))
  }

  /** `parseInt(s)` without a radix, with NaN as `None`: leading white space
      is skipped and a sign is read before the digits. */
  function ParseInt(s: string): Option<int>
  {
    var t := s[LeadingSpaces(s)..];
    if 0 < |t| && (t[0] == '-' || t[0] == '+') then
      var m := ParseMagnitude(t[1..]);
      if t[0] == '-' && m.Some? then Some(-m.value) else m
    else ParseMagnitude(t)
  }

  lemma {:induction false} RunValueDecimal(s: string)
    requires AllDigits(s)
    ensures RadixDigits(s, 10) && RunValue(s, 10) == DecimalValue(s)
  {
    if s != [] {
      RunValueDecimal(s[..|s| - 1]);
    }
  }

  /** The digits of a natural number read back as that number. */
  lemma MagnitudeOfDecimal(m: nat)
    ensures ParseMagnitude(NatToDecimal(m)) == Some(m)
  {
    var digits := NatToDecimal(m);
    RunValueDecimal(digits);
    DecimalRoundTrip(m);
    assert RunLength(digits, 10) == |digits|;
    assert digits[..|digits|] == digits;
  }

  /** Text that starts with neither white space nor a sign is read as an
      unsigned number; text that starts with '-' as the negated number. */
  lemma ParseIntUnpadded(s: string)
    requires 0 < |s| && !IsJsSpace(s[0])
    ensures s[0] != '-' && s[0] != '+' ==> ParseInt(s) == ParseMagnitude(s)
    ensures s[0] == '-' ==> ParseInt(s) == match ParseMagnitude(s[1..]) case Some(v) => Some(-v) case None => None
  {
    assert LeadingSpaces(s) == 0;
    assert s[0..] == s;
  }

  /** A number written in decimal reads back as that number. */
  lemma ParseIntReadsDecimal(x: int)
    ensures ParseInt(IntToDecimal(x)) == Some(x)
  {
    var s := IntToDecimal(x);
    ParseIntUnpadded(s);
    if x < 0 {
      MagnitudeOfDecimal(-x);
    } else {
      MagnitudeOfDecimal(x);
    }
  }

  // ---------------------------------------------------------------------
  // The pager of chooseJsonFile
  // ---------------------------------------------------------------------

  /** One line typed at the prompt: the command word and its arguments. */
  datatype PromptLine = PromptLine(command: string, args: seq<string>)

  /** What a command asks for; `GoTo` carries `parseInt` of its first
      argument (NaN as `None`). */
  datatype Command = Next | Previous | GoTo(target: Option<int>) | Pick(digit: nat) | Unrecognized

  /** How the prompt loop ends: an entry was chosen, the chosen number has no
      entry (reading its file name throws), or the input ran out. */
  datatype Choice = Selected(index: nat) | SelectionFailed(index: nat) | NoSelection

  function AsciiLower(c: char): char
  {
    if 'A' <= c <= 'Z' then (c as int + 32) as char else c
  }

  /** `s` spells the lower-case `word`, ignoring ASCII case (the `i` flag). */
  predicate SameIgnoringCase(s: string, word: string)
  {
    |s| == |word| && forall i :: 0 <= i < |s| ==> AsciiLower(s[i]) == word[i]
  }

  /** The tests of the loop, in their order: `/^n(ext)?$/i`, `/^p(revious)?$/i`,
      `/^go?$/i`, `/^\d$/`. A missing page argument is `parseInt(undefined)`. */
  function ParseCommand(line: PromptLine): (c: Command)
    ensures c.Pick? <==> |line.command| == 1 && IsDigit(line.command[0])
    ensures c.Pick? ==> c.digit < 10 && c.digit == DecimalValue(line.command)
  {
    var w := line.command;
    if SameIgnoringCase(w, "n") || SameIgnoringCase(w, "next") then Next
    else if SameIgnoringCase(w, "p") || SameIgnoringCase(w, "previous") then Previous
    else if SameIgnoringCase(w, "g") || SameIgnoringCase(w, "go") then
      GoTo(ParseInt(if line.args == [] then "undefined" else line.args[0]))
    else if |w| == 1 && IsDigit(w[0]) then
      assert DecimalValue(w) == DecimalValue(w[..0]) * 10 + (w[0] as int - '0' as int);
      Pick(w[0] as int - '0' as int)
    else Unrecognized
  }

  /** Command words are read without regard to case. */
  lemma CommandCaseIgnored(args: seq<string>)
    ensures ParseCommand(PromptLine("NEXT", args)) == Next
    ensures ParseCommand(PromptLine("Previous", args)) == Previous
    ensures ParseCommand(PromptLine("nex", args)) == Unrecognized
  {
  }

  /** `g X` and `go X` read the page number X; without one the target is
      `parseInt(undefined)`, which is NaN. */
  lemma GoReadsPageNumber(w: string, x: int, rest: seq<string>)
    requires SameIgnoringCase(w, "g") || SameIgnoringCase(w, "go")
    ensures ParseCommand(PromptLine(w, [IntToDecimal(x)] + rest)) == GoTo(Some(x))
    ensures ParseCommand(PromptLine(w, [])) == GoTo(None)
  {
    assert AsciiLower(w[0]) == 'g';
    assert !SameIgnoringCase(w, "n") && !SameIgnoringCase(w, "next");
    assert !SameIgnoringCase(w, "p") && !SameIgnoringCase(w, "previous");
    ParseIntReadsDecimal(x);
    ParseIntUndefined();
  }

  /** `parseInt(undefined)` reads the text "undefined", which has no digit. */
  lemma ParseIntUndefined()
    ensures ParseInt("undefined") == None
  {
    var u := "undefined";
    assert u[0] == 'u';
    ParseIntUnpadded(u);
    assert DigitValue(u[0]) == 30;
  }

  /** `Math.floor((n - 1) / 10)`: the last page, -1 when there are no
      entries. */
  function MaxPage(count: nat): int
  {
    (count - 1) / 10
  }

  /** The last page is the one that holds the last entry. */
  lemma MaxPageHoldsLastEntry(count: nat)
    ensures count == 0 ==> MaxPage(count) == -1
    ensures 0 < count ==> 0 <= MaxPage(count) && MaxPage(count) * 10 < count <= MaxPage(count) * 10 + 10
  {
  }

  /** The highest page the pager can be on: the last page, or the first one
      when there is none. */
  function LastReachable(maxPage: int): nat
  {
    if maxPage < 0 then 0 else maxPage
  }

  /** The page after a command that does not pick an entry. */
  function Turn(c: Command, page: nat, maxPage: int): (next: nat)
    requires !c.Pick?
  {
    match c
    case Next => if page < maxPage then page + 1 else page
    case Previous => if page > 0 then page - 1 else page
    case GoTo(t) => if t.Some? && 0 < t.value <= maxPage + 1 then t.value - 1 else page
    case Unrecognized => page
    case Pick(_) => page
  }

  /** No command leaves the pages there are (the first page when the archive
      has no entry). */
  lemma TurnStaysInRange(c: Command, page: nat, maxPage: int)
    requires !c.Pick? && page <= LastReachable(maxPage)
    ensures Turn(c, page, maxPage) <= LastReachable(maxPage)
    ensures c.GoTo? && c.target.Some? && 0 < c.target.value <= maxPage + 1 ==> Turn(c, page, maxPage) + 1 == c.target.value
    ensures (c.GoTo? && !(c.target.Some? && 0 < c.target.value <= maxPage + 1)) || c.Unrecognized? ==> Turn(c, page, maxPage) == page
  {
  }

  /** Going to the next page and back returns to the page before. */
  lemma NextThenPrevious(page: nat, maxPage: int)
    requires page < maxPage
    ensures Turn(Previous, Turn(Next, page, maxPage), maxPage) == page
  {
  }

  /** `entries.slice(page * 10, page * 10 + 10)`: up to ten entries from the
      page's first one, fewer on the last page. */
  function PageItems(entries: seq<string>, page: nat): (items: seq<string>)
    ensures |items| <= 10
    ensures |items| < 10 ==> |entries| <= page * 10 + |items|
    ensures forall d :: 0 <= d < |items| ==> page * 10 + d < |entries| && items[d] == entries[page * 10 + d]
  {
    var start := if page * 10 < |entries| then page * 10 else |entries|;
    var end := if page * 10 + 10 < |entries| then page * 10 + 10 else |entries|;
    entries[start..end]
  }

  /** The prompt loop from `page` on: how it ends, and the page shown again
      after each command that did not pick an entry. */
  function Session(entries: seq<string>, page: nat, lines: seq<PromptLine>): (Choice, seq<nat>)
    decreases |lines|
  {
    if lines == [] then (NoSelection, [])
    else
      var c := ParseCommand(lines[0]);
      if c.Pick? then
        var index := page * 10 + c.digit;
        (if index < |entries| then Selected(index) else SelectionFailed(index), [])
      else
        var next := Turn(c, page, MaxPage(|entries|));
        var rest := Session(entries, next, lines[1..]);
        (rest.0, [next] + rest.1)
  }

  /** After the first `i` lines the loop is on `page` and has shown
      `shown`; what remains of the session, run from there, completes the
      whole session. */
  predicate Pending(entries: seq<string>, lines: seq<PromptLine>, i: nat, page: nat, shown: seq<nat>)
    requires i <= |lines|
  {
    Session(entries, 0, lines).0 == Session(entries, page, lines[i..]).0
    && [0] + Session(entries, 0, lines).1 == shown + Session(entries, page, lines[i..]).1
  }

  lemma PendingAtStart(entries: seq<string>, lines: seq<PromptLine>)
    ensures Pending(entries, lines, 0, 0, [0])
  {
    assert lines[0..] == lines;
  }

  /** A digit ends the session with the entry it picks. */
  lemma PendingPick(entries: seq<string>, lines: seq<PromptLine>, i: nat, page: nat, shown: seq<nat>)
    requires i < |lines| && Pending(entries, lines, i, page, shown)
    requires ParseCommand(lines[i]).Pick?
    ensures var index := page * 10 + ParseCommand(lines[i]).digit;
            Session(entries, 0, lines).0 == if index < |entries| then Selected(index) else SelectionFailed(index)
    ensures [0] + Session(entries, 0, lines).1 == shown
  {
    assert lines[i..][0] == lines[i];
    assert shown + [] == shown;
  }

  /** Any other command turns the page and shows it. */
  lemma PendingTurn(entries: seq<string>, lines: seq<PromptLine>, i: nat, page: nat, shown: seq<nat>)
    requires i < |lines| && Pending(entries, lines, i, page, shown)
    requires !ParseCommand(lines[i]).Pick?
    ensures var next := Turn(ParseCommand(lines[i]), page, MaxPage(|entries|));
            Pending(entries, lines, i + 1, next, shown + [next])
  {
    assert lines[i..][0] == lines[i] && lines[i..][1..] == lines[i + 1..];
    var next := Turn(ParseCommand(lines[i]), page, MaxPage(|entries|));
    ConcatAssoc(shown, [next], Session(entries, next, lines[i + 1..]).1);
  }

  /** Input that runs out ends the session without a choice. */
  lemma PendingAtEnd(entries: seq<string>, lines: seq<PromptLine>, page: nat, shown: seq<nat>)
    requires Pending(entries, lines, |lines|, page, shown)
    ensures Session(entries, 0, lines).0 == NoSelection
    ensures [0] + Session(entries, 0, lines).1 == shown
  {
    assert lines[|lines|..] == [];
    assert shown + [] == shown;
  }

  /** Every page the loop shows exists (or is the first page of an empty
      archive). */
  lemma {:induction false} SessionPagesInRange(entries: seq<string>, page: nat, lines: seq<PromptLine>)
    requires page <= LastReachable(MaxPage(|entries|))
    ensures forall p :: p in Session(entries, page, lines).1 ==> p <= LastReachable(MaxPage(|entries|))
    decreases |lines|
  {
    if lines != [] {
      var c := ParseCommand(lines[0]);
      if !c.Pick? {
        var next := Turn(c, page, MaxPage(|entries|));
        TurnStaysInRange(c, page, MaxPage(|entries|));
        SessionPagesInRange(entries, next, lines[1..]);
      }
    }
  }

  /** A digit picks the entry shown with that label on the current page, and
      fails exactly when the page shows no such label. */
  lemma PickChoosesLabelledEntry(entries: seq<string>, page: nat, lines: seq<PromptLine>)
    requires lines != [] && ParseCommand(lines[0]).Pick?
    ensures var d := ParseCommand(lines[0]).digit;
            var items := PageItems(entries, page);
            Session(entries, page, lines).0
              == if d < |items| then Selected(page * 10 + d) else SelectionFailed(page * 10 + d)
    ensures var d := ParseCommand(lines[0]).digit;
            d < |PageItems(entries, page)| ==> entries[page * 10 + d] == PageItems(entries, page)[d]
  {
  }

  // ---------------------------------------------------------------------
  // showMenuOptions
  // ---------------------------------------------------------------------

  const PreviousHint: string := "(p)revious page"
  const NextHint: string := "(n)ext page"
  const GoHint: string := "\"(g)o X\" to jump to a page"

  /** Where a hint goes in the hint line. */
  function HintRank(hint: string): nat
  {
    if hint == PreviousHint then 0 else if hint == NextHint then 1 else 2
  }

  /** The commands offered on a page, in the order previous, next, go. */
  function MenuHints(page: int, maxPage: int): seq<string>
  {
    (if page > 0 then [PreviousHint] else [])
    + (if page < maxPage then [NextHint] else [])
    + (if maxPage > 0 then [GoHint] else [])
  }

  /** Previous is offered exactly past the first page, next exactly before
      the last, go exactly when there is more than one page; the hints keep
      their order. */
  lemma MenuHintsOffered(page: int, maxPage: int)
    ensures PreviousHint in MenuHints(page, maxPage) <==> page > 0
    ensures NextHint in MenuHints(page, maxPage) <==> page < maxPage
    ensures GoHint in MenuHints(page, maxPage) <==> maxPage > 0
    ensures var hints := MenuHints(page, maxPage);
            forall i, j :: 0 <= i < j < |hints| ==> HintRank(hints[i]) < HintRank(hints[j])
  {
    assert PreviousHint[1] != NextHint[1] && PreviousHint[0] != GoHint[0] && NextHint[0] != GoHint[0];
  }

  function ItemLine(position: nat, item: string): string
  {
    "(" + NatToDecimal(position) + "): " + item
  }

  /** What one display of the menu shows: the page counter (counting from
      one), each item after its label, and the hint line. */
  function MenuText(page: nat, maxPage: int, items: seq<string>): seq<string>
  {
    [PageCounter(page, maxPage)] + ItemLines(items) + [JoinWith(MenuHints(page, maxPage), " | ")]
  }

  function PageCounter(page: nat, maxPage: int): string
  {
    "Showing page " + IntToDecimal(page + 1) + " of " + IntToDecimal(maxPage + 1)
  }

  function ItemLines(items: seq<string>): (r: seq<string>)
    ensures |r| == |items| && forall k :: 0 <= k < |items| ==> r[k] == ItemLine(k, items[k])
  {
    seq(|items|, k requires 0 <= k < |items| => ItemLine(k, items[k]))
  }

  /** The label shown before an entry is the digit that picks it. */
  lemma LabelsMatchPicks(entries: seq<string>, page: nat, d: nat)
    requires d < |PageItems(entries, page)|
    ensures MenuText(page, MaxPage(|entries|), PageItems(entries, page))[d + 1]
            == ItemLine(d, entries[page * 10 + d])
    ensures d < 10 && NatToDecimal(d) == [DigitChar(d)]
  {
    var items := PageItems(entries, page);
    var maxPage := MaxPage(|entries|);
    var hintLine := JoinWith(MenuHints(page, maxPage), " | ");
    BetweenFirstAndLast(PageCounter(page, maxPage), ItemLines(items), hintLine, d);
  }

  lemma BetweenFirstAndLast<T>(first: T, middle: seq<T>, last: T, k: nat)
    requires k < |middle|
    ensures ([first] + middle + [last])[k + 1] == middle[k]
  {
  }

  lemma CounterThenItems(counter: string, items: seq<string>, lines: seq<string>)
    requires |lines| == |items| + 1 && lines[0] == counter
    requires forall k :: 0 <= k < |items| ==> lines[k + 1] == ItemLine(k, items[k])
    ensures lines == [counter] + ItemLines(items)
  {
  }

  /** `showMenuOptions`: the counter line, the labelled items one by one,
      then the hints pushed one by one and joined. */
  method ShowMenuOptions(currentPage: nat, maxPage: int, items: seq<string>) returns (lines: seq<string>)
    ensures lines == MenuText(currentPage, maxPage, items)
  {
    lines := [PageCounter(currentPage, maxPage)];
    var idx := 0;
    while idx < |items|
      invariant 0 <= idx <= |items| && |lines| == idx + 1
      invariant lines[0] == PageCounter(currentPage, maxPage)
      invariant forall k :: 0 <= k < idx ==> lines[k + 1] == ItemLine(k, items[k])
    {
      lines := lines + [ItemLine(idx, items[idx])];
      idx := idx + 1;
    }
    var commandsToShow: seq<string> := [];
    if currentPage > 0 {
      commandsToShow := commandsToShow + [PreviousHint];
    }
    if currentPage < maxPage {
      commandsToShow := commandsToShow + [NextHint];
    }
    if maxPage > 0 {
      commandsToShow := commandsToShow + [GoHint];
    }
    assert commandsToShow == MenuHints(currentPage, maxPage);
    CounterThenItems(PageCounter(currentPage, maxPage), items, lines);
    lines := lines + [JoinWith(commandsToShow, " | ")];
  }

  /** `screens` is one menu display per page in `pages`, in order. */
  predicate ShowsPages(entries: seq<string>, screens: seq<seq<string>>, pages: seq<nat>)
    decreases |pages|
  {
    |screens| == |pages|
    && (pages == []
        || (ShowsPages(entries, screens[..|screens| - 1], pages[..|pages| - 1])
            && screens[|screens| - 1] == MenuText(pages[|pages| - 1], MaxPage(|entries|), PageItems(entries, pages[|pages| - 1]))))
  }

  // ---------------------------------------------------------------------
  // chooseJsonFile
  // ---------------------------------------------------------------------

  lemma ShowsOneMorePage(entries: seq<string>, screens: seq<seq<string>>, pages: seq<nat>, page: nat, text: seq<string>)
    requires ShowsPages(entries, screens, pages)
    requires text == MenuText(page, MaxPage(|entries|), PageItems(entries, page))
    ensures ShowsPages(entries, screens + [text], pages + [page])
  {
    assert (screens + [text])[..|screens|] == screens;
    assert (pages + [page])[..|pages|] == pages;
  }

  /** The branches of the prompt loop that do not pick an entry: they move
      `currentPage` or report that they cannot. */
  method TurnPage(command: Command, currentPage: nat, maxPage: int) returns (page: nat)
    requires !command.Pick?
    ensures page == Turn(command, currentPage, maxPage)
  {
    page := currentPage;
    match command {
      case Next =>
        if currentPage < maxPage {
          page := currentPage + 1;
        }
      case Previous =>
        if currentPage > 0 {
          page := currentPage - 1;
        }
      case GoTo(targetPage) =>
        if targetPage.Some? && 0 < targetPage.value <= maxPage + 1 {
          page := targetPage.value - 1;
        }
      case Unrecognized =>
    }
  }

  /** `chooseJsonFile` over the entries' file names and the lines typed at
      the prompt: the first page is shown, then each command either picks an
      entry and ends the loop or turns the page and shows the menu again. */
  method ChooseJsonFile(entries: seq<string>, lines: seq<PromptLine>)
    returns (choice: Choice, screens: seq<seq<string>>)
    ensures choice == Session(entries, 0, lines).0
    ensures ShowsPages(entries, screens, [0] + Session(entries, 0, lines).1)
  {
    var maxPage := MaxPage(|entries|);
    var currentPage: nat := 0;
    var text := ShowMenuOptions(currentPage, maxPage, PageItems(entries, currentPage));
    screens := [text];
    ghost var shown: seq<nat> := [0];
    PendingAtStart(entries, lines);
    var i := 0;
    while i < |lines|
      invariant 0 <= i <= |lines|
      invariant Pending(entries, lines, i, currentPage, shown)
      invariant ShowsPages(entries, screens, shown)
    {
      var command := ParseCommand(lines[i]);
      if command.Pick? {
        PendingPick(entries, lines, i, currentPage, shown);
        var chosenIndex := currentPage * 10 + command.digit;
        if chosenIndex < |entries| {
          choice := Selected(chosenIndex);
        } else {
          choice := SelectionFailed(chosenIndex);
        }
        return;
      }
      PendingTurn(entries, lines, i, currentPage, shown);
      currentPage := TurnPage(command, currentPage, maxPage);
      text := ShowMenuOptions(currentPage, maxPage, PageItems(entries, currentPage));
      ShowsOneMorePage(entries, screens, shown, currentPage, text);
      screens := screens + [text];
      shown := shown + [currentPage];
      i := i + 1;
    }
    PendingAtEnd(entries, lines, currentPage, shown);
    choice := NoSelection;
  }
}
