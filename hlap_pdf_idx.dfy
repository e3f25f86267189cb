/**
 * The HLAP PDF bill index: one record per bill page, holding the account
 * number from the page's ninth text line and the page's index number as both
 * start and end page; alignment test pages are skipped. Also the check-out
 * report over the index checker's results, and the decision whether the
 * input file must be renamed to the composed bill name first.
 *
 * The PDF reader is replaced by the sequence of page texts, and the index
 * file by the sequence of records written to it.
 */
module HlapPdfIdx {
  import opened Wrappers
  import opened Strings
  import opened Paths

  //---------------------------------------------------------------- records

  /** An alignment test page: its text mentions ALIGNMENT. */
  predicate IsAlignment(text: string)
  {
    Contains(text, "ALIGNMENT")
  }

  function Zeros(n: nat): (z: string)
    ensures |z| == n && forall i :: 0 <= i < n ==> z[i] == '0'
  {
    seq(n, _ => '0')
  }

  /** The account right-aligned in a field of ten, filled with '0'; a longer account is kept whole. */
  function Pad10(acc: string): (r: string)
    ensures |r| == if |acc| < 10 then 10 else |acc|
    ensures r[|r| - |acc|..] == acc
    ensures forall i :: 0 <= i < |r| - |acc| ==> r[i] == '0'
  {
    if |acc| >= 10 then acc else Zeros(10 - |acc|) + acc
  }

  /** One index record: padded account, start page, end page (equal), and a newline. */
  function IndexLine(acc: string, idx: nat): string
  {
    Pad10(acc) + "," + Decimal(idx) + "," + Decimal(idx) + "\n"
  }

  /** A record is one text line of at least fifteen characters, provided the account holds no newline. */
  lemma IndexLineIsOneLine(acc: string, idx: nat)
    requires '\n' !in acc
    ensures var line := IndexLine(acc, idx);
            && |line| >= 15 && line[|line| - 1] == '\n'
            && forall i :: 0 <= i < |line| - 1 ==> line[i] != '\n'
  {
    var a, d := Pad10(acc), Decimal(idx);
    assert '\n' !in a by {
      forall i | 0 <= i < |a| ensures a[i] != '\n' {
        if i >= |a| - |acc| {
          assert a[i] == a[|a| - |acc|..][i - (|a| - |acc|)];
        }
      }
    }
    assert '\n' !in d by {
      forall i | 0 <= i < |d| ensures d[i] != '\n' {
        assert IsDigit(d[i]);
      }
    }
    var line := IndexLine(acc, idx);
    assert line == a + [','] + d + [','] + d + ['\n'];
  }

  /**
   * A record reads back as its three comma-separated fields: the padded
   * account and twice the index number.
   */
  lemma IndexLineFields(acc: string, idx: nat)
    requires ',' !in acc
    ensures var line := IndexLine(acc, idx);
            && line[|line| - 1] == '\n'
            && Split(line[..|line| - 1], ',') == [Pad10(acc), Decimal(idx), Decimal(idx)]
            && DecimalValue(Decimal(idx)) == idx
  {
    var a, d := Pad10(acc), Decimal(idx);
    assert ',' !in a by {
      forall i | 0 <= i < |a| ensures a[i] != ',' {
        if i >= |a| - |acc| {
          assert a[i] == a[|a| - |acc|..][i - (|a| - |acc|)];
        }
      }
    }
    assert ',' !in d by {
      forall i | 0 <= i < |d| ensures d[i] != ',' {
        assert IsDigit(d[i]);
      }
    }
    var line := IndexLine(acc, idx);
    var body := a + [','] + d + [','] + d;
    assert line == body + ['\n'];
    assert line[..|line| - 1] == body;
    JoinOfThree(a, d, d, ',');
    SplitJoin([a, d, d], ',');
    DecimalRoundTrip(idx);
  }

  lemma JoinOfThree(x: string, y: string, z: string, sep: char)
    ensures JoinWith([x, y, z], sep) == x + [sep] + y + [sep] + z
  {
    assert [x, y, z][1..] == [y, z];
    assert [y, z][1..] == [z];
    assert JoinWith([z], sep) == z;
    assert JoinWith([y, z], sep) == y + [sep] + z;
  }

  /** `text.split('\n')[8]`, when the page has at least nine lines. */
  function AccountOf(text: string): Option<string>
  {
    var lines := Split(text, '\n');
    if |lines| > 8 then Some(lines[8]) else None
  }

  /** An alignment page is one whose text holds "ALIGNMENT" at some position. */
  lemma AlignmentMeansMention(text: string)
    ensures IsAlignment(text) <==> exists k: nat :: OccursAt("ALIGNMENT", text, k)
  {
  }

  /**
   * The account of a page is its ninth line, when there is one; otherwise
   * `lines[8]` raises IndexError (None). The account never holds a newline.
   */
  lemma AccountOfNinthLine(text: string)
    ensures var lines := Split(text, '\n');
            && (AccountOf(text).Some? <==> |lines| >= 9)
            && (AccountOf(text).Some? ==> AccountOf(text).value == lines[8] && '\n' !in AccountOf(text).value)
  {
  }

  //---------------------------------------------------------------- the page loop

  /**
   * The state of the page loop: the records written, the alignment pages
   * seen, `first_acc` and `acc_no` (None while still 0 / unassigned), and the
   * page whose text had fewer than nine lines, if the loop stopped there.
   */
  datatype Scan = Scan(lines: seq<string>, alignNo: nat, firstAcc: Option<string>, accNo: Option<string>, shortPage: Option<nat>)

  /** `first_acc or acc_no`: both the initial 0 and "" are falsy. */
  function KeepFirst(firstAcc: Option<string>, acc: string): Option<string>
  {
    if firstAcc.None? || firstAcc.value == "" then Some(acc) else firstAcc
  }

  /** Python's `or`: a non-empty first account is kept, otherwise the new account is taken. */
  lemma KeepFirstIsOr(firstAcc: Option<string>, acc: string)
    ensures var r := KeepFirst(firstAcc, acc);
            && r.Some?
            && (firstAcc.Some? && firstAcc.value != "" ==> r == firstAcc)
            && (firstAcc.None? || firstAcc.value == "" ==> r == Some(acc))
            && (r.value == "" ==> acc == "")
  {
  }

  /** One turn of the loop, for the page at 0-based position `pageNo`. */
  function ScanStep(s: Scan, pageNo: nat, text: string): Scan
  {
    if s.shortPage.Some? then s
    else if IsAlignment(text) then s.(alignNo := s.alignNo + 1)
    else
      match AccountOf(text)
      case None => s.(shortPage := Some(pageNo))
      case Some(acc) =>
        Scan(s.lines + [IndexLine(acc, pageNo + 1 + s.alignNo)], s.alignNo, KeepFirst(s.firstAcc, acc), Some(acc), None)
  }

  /**
   * One turn stops the loop only at a bill page with fewer than nine lines,
   * and writes a record only for a readable bill page: its account, at index
   * number position + 1 + alignment pages so far.
   */
  lemma ScanStepWrites(s: Scan, pageNo: nat, text: string)
    ensures s.shortPage.Some? ==> ScanStep(s, pageNo, text) == s
    ensures s.shortPage.None? ==>
            var r := ScanStep(s, pageNo, text);
            && |s.lines| <= |r.lines| <= |s.lines| + 1 && r.lines[..|s.lines|] == s.lines
            && (r.shortPage.Some? <==> !IsAlignment(text) && AccountOf(text).None?)
            && (r.shortPage.Some? ==> r.shortPage == Some(pageNo) && r.lines == s.lines)
            && (|r.lines| == |s.lines| + 1 <==> !IsAlignment(text) && AccountOf(text).Some?)
            && (|r.lines| == |s.lines| + 1 ==>
                  && r.accNo == AccountOf(text)
                  && r.lines[|s.lines|] == IndexLine(AccountOf(text).value, pageNo + 1 + s.alignNo))
  {
  }

  /** The loop run over all pages. */
  function ScanPages(pages: seq<string>): (s: Scan)
    ensures s.firstAcc.None? <==> s.accNo.None?
    ensures s.accNo.None? ==> s.lines == []
    ensures |s.lines| + s.alignNo <= |pages|
    ensures s.shortPage.Some? ==> s.shortPage.value < |pages|
  {
    if pages == [] then Scan([], 0, None, None, None)
    else ScanStep(ScanPages(pages[..|pages| - 1]), |pages| - 1, pages[|pages| - 1])
  }

  /** Once the loop has stopped on a short page, later pages change nothing. */
  lemma {:induction false} ScanStops(pages: seq<string>, q: nat)
    requires q <= |pages| && ScanPages(pages[..q]).shortPage.Some?
    ensures ScanPages(pages) == ScanPages(pages[..q])
    decreases |pages|
  {
    if q < |pages| {
      var pre := pages[..|pages| - 1];
      assert pre[..q] == pages[..q];
      ScanStops(pre, q);
    } else {
      assert pages[..q] == pages;
    }
  }

  /** Scanning one more page is one more loop step. */
  lemma ScanPagesSnoc(pages: seq<string>, i: nat)
    requires i < |pages|
    ensures ScanPages(pages[..i + 1]) == ScanStep(ScanPages(pages[..i]), i, pages[i])
  {
    assert pages[..i + 1][..i] == pages[..i];
  }

  /** The page count passed on after the loop: the last page index plus one, and 1 for an empty document. */
  function PageCount(n: nat): (c: nat)
    ensures c >= 1
    ensures n > 0 ==> c == n
  {
    if n == 0 then 0 + 1 else (n - 1) + 1
  }

  /** What create_index ends with. */
  datatype IndexOutcome =
    | Indexed(lines: seq<string>, pageCount: nat, firstAcc: string, lastAcc: string)
      // no bill page: acc_no is never bound, so the call to the checker raises after the (empty) index file is in place
    | NoAccount(pageCount: nat)
      // a bill page with fewer than nine lines raises IndexError; the temporary file holds the records before it
    | ShortPage(page: nat, partial: seq<string>)

  function IndexOutcomeOf(pages: seq<string>): (r: IndexOutcome)
    ensures r.ShortPage? ==> r.page < |pages|
    ensures r.NoAccount? ==> r.pageCount == if pages == [] then 1 else |pages|
    ensures r.Indexed? ==> r.pageCount == |pages| && |r.lines| <= |pages|
  {
    var s := ScanPages(pages);
    if s.shortPage.Some? then ShortPage(s.shortPage.value, s.lines)
    else if s.accNo.None? then NoAccount(PageCount(|pages|))
    else Indexed(s.lines, PageCount(|pages|), s.firstAcc.value, s.accNo.value)
  }

  /** The page loop of create_index over the page texts. */
  method CreateIndex(pages: seq<string>) returns (r: IndexOutcome)
    ensures r == IndexOutcomeOf(pages)
  {
    var lines: seq<string> := [];
    var pageNo, alignNo := 0, 0;
    var firstAcc: Option<string> := None;
    var accNo: Option<string> := None;
    for i := 0 to |pages|
      invariant pageNo == if i == 0 then 0 else i - 1
      invariant ScanPages(pages[..i]) == Scan(lines, alignNo, firstAcc, accNo, None)
    {
      ScanPagesSnoc(pages, i);
      ghost var before := Scan(lines, alignNo, firstAcc, accNo, None);
      pageNo := i;
      var text := pages[i];
      if IsAlignment(text) {
        alignNo := alignNo + 1;
        assert ScanStep(before, i, text) == Scan(lines, alignNo, firstAcc, accNo, None);
      } else {
        var textLines := Split(text, '\n');
        if |textLines| <= 8 {
          assert ScanPages(pages[..i + 1]) == before.(shortPage := Some(i));
          ScanStops(pages, i + 1);
          return ShortPage(pageNo, lines);
        }
        assert AccountOf(text) == Some(textLines[8]);
        var idxNo := pageNo + 1 + alignNo;
        accNo := Some(textLines[8]);
        firstAcc := KeepFirst(firstAcc, textLines[8]);
        lines := lines + [IndexLine(textLines[8], idxNo)];
        assert ScanStep(before, i, text) == Scan(lines, alignNo, firstAcc, accNo, None);
      }
    }
    pageNo := pageNo + 1;
    assert pages[..|pages|] == pages;
    if accNo.None? {
      return NoAccount(pageNo);
    }
    r := Indexed(lines, pageNo, firstAcc.value, accNo.value);
  }

  //---------------------------------------------------------------- reference description

  /** The number of alignment pages. */
  function AlignCount(pages: seq<string>): nat
  {
    if pages == [] then 0
    else AlignCount(pages[..|pages| - 1]) + (if IsAlignment(pages[|pages| - 1]) then 1 else 0)
  }

  /** The index number of the page at position `p`: its 1-based position plus the alignment pages before it. */
  function IndexNumber(pages: seq<string>, p: nat): nat
    requires p < |pages|
  {
    p + 1 + AlignCount(pages[..p])
  }

  /** The positions of the bill (non-alignment) pages, in increasing order. */
  function BillPages(pages: seq<string>): (b: seq<nat>)
    ensures forall k :: 0 <= k < |b| ==> b[k] < |pages| && !IsAlignment(pages[b[k]])
    ensures forall p :: 0 <= p < |pages| && !IsAlignment(pages[p]) ==> p in b
    ensures forall j, k :: 0 <= j < k < |b| ==> b[j] < b[k]
    ensures |b| + AlignCount(pages) == |pages|
  {
    if pages == [] then []
    else
      var pre := BillPages(pages[..|pages| - 1]);
      if IsAlignment(pages[|pages| - 1]) then pre else pre + [|pages| - 1]
  }

  /** Every bill page has at least nine text lines. */
  predicate AllBillsReadable(pages: seq<string>)
  {
    forall p :: 0 <= p < |pages| && !IsAlignment(pages[p]) ==> AccountOf(pages[p]).Some?
  }

  lemma ReadablePrefix(pages: seq<string>, q: nat)
    requires q <= |pages| && AllBillsReadable(pages)
    ensures AllBillsReadable(pages[..q])
  {
    forall p | 0 <= p < q && !IsAlignment(pages[..q][p]) ensures AccountOf(pages[..q][p]).Some? {
      assert pages[..q][p] == pages[p];
    }
  }

  lemma IndexNumberOfPrefix(pages: seq<string>, m: nat, x: nat)
    requires x < m <= |pages|
    ensures IndexNumber(pages[..m], x) == IndexNumber(pages, x)
  {
    assert pages[..m][..x] == pages[..x];
  }

  /** The loop stops exactly at the first bill page with fewer than nine lines, and only there. */
  lemma {:induction false} ScanStopsAtFirstShortPage(pages: seq<string>)
    ensures var s := ScanPages(pages);
            && (s.shortPage.None? <==> AllBillsReadable(pages))
            && (s.shortPage.Some? ==>
                  var p := s.shortPage.value;
                  !IsAlignment(pages[p]) && AccountOf(pages[p]).None? && AllBillsReadable(pages[..p]))
    decreases |pages|
  {
    if pages != [] {
      var n := |pages|;
      var pre := pages[..n - 1];
      ScanStopsAtFirstShortPage(pre);
      var sp := ScanPages(pre);
      if sp.shortPage.Some? {
        var p := sp.shortPage.value;
        assert pre[p] == pages[p];
        assert pre[..p] == pages[..p];
      } else if !IsAlignment(pages[n - 1]) && AccountOf(pages[n - 1]).None? {
        assert !AllBillsReadable(pages);
      } else {
        forall p | 0 <= p < n && !IsAlignment(pages[p]) ensures AccountOf(pages[p]).Some? {
          if p < n - 1 {
            assert pre[p] == pages[p];
          }
        }
      }
    }
  }

  /** The records of `pages` are one per bill page, in order, each with that page's account and index number. */
  ghost predicate RecordsMatch(pages: seq<string>)
  {
    var s, b := ScanPages(pages), BillPages(pages);
    && s.shortPage.None?
    && s.alignNo == AlignCount(pages)
    && |s.lines| == |b|
    && forall k :: 0 <= k < |b| ==>
         AccountOf(pages[b[k]]).Some? &&
         s.lines[k] == IndexLine(AccountOf(pages[b[k]]).value, IndexNumber(pages, b[k]))
  }

  /**
   * Records written for the earlier pages stay as they were when the prefix
   * was scanned: `plines`/`bp` are the records and bill positions of the
   * prefix, `lines`/`b` those of the whole document.
   */
  lemma EarlierRecordsKept(pages: seq<string>, lines: seq<string>, b: seq<nat>, plines: seq<string>, bp: seq<nat>)
    requires |pages| > 0 && |plines| == |bp|
    requires forall k :: 0 <= k < |bp| ==>
               && bp[k] < |pages| - 1 && AccountOf(pages[..|pages| - 1][bp[k]]).Some?
               && plines[k] == IndexLine(AccountOf(pages[..|pages| - 1][bp[k]]).value, IndexNumber(pages[..|pages| - 1], bp[k]))
    requires |bp| <= |b| && |bp| <= |lines| && lines[..|bp|] == plines && b[..|bp|] == bp
    ensures forall k :: 0 <= k < |bp| ==>
              && b[k] < |pages| && AccountOf(pages[b[k]]).Some?
              && lines[k] == IndexLine(AccountOf(pages[b[k]]).value, IndexNumber(pages, b[k]))
  {
    var n := |pages|;
    var pre := pages[..n - 1];
    forall k | 0 <= k < |bp|
      ensures b[k] < |pages| && AccountOf(pages[b[k]]).Some?
      ensures lines[k] == IndexLine(AccountOf(pages[b[k]]).value, IndexNumber(pages, b[k]))
    {
      var x := bp[k];
      assert b[k] == b[..|bp|][k] == x;
      assert lines[k] == lines[..|bp|][k] == plines[k];
      assert pre[x] == pages[x];
      IndexNumberOfPrefix(pages, n - 1, x);
    }
  }

  /** An alignment page adds no record and one to the alignment count. */
  lemma RecordsExtendByAlignment(pages: seq<string>)
    requires |pages| > 0 && IsAlignment(pages[|pages| - 1])
    requires RecordsMatch(pages[..|pages| - 1])
    ensures RecordsMatch(pages)
  {
    var pre := pages[..|pages| - 1];
    assert ScanPages(pages).lines == ScanPages(pre).lines;
    assert BillPages(pages) == BillPages(pre);
    EarlierRecordsKept(pages, ScanPages(pages).lines, BillPages(pages), ScanPages(pre).lines, BillPages(pre));
  }

  /** A readable bill page, on a loop that has not stopped, appends its record and sets both accounts. */
  lemma StepOnBill(s: Scan, pageNo: nat, text: string, acc: string, idx: nat)
    requires s.shortPage.None? && !IsAlignment(text) && AccountOf(text) == Some(acc)
    requires idx == pageNo + 1 + s.alignNo
    ensures ScanStep(s, pageNo, text) == Scan(s.lines + [IndexLine(acc, idx)], s.alignNo, KeepFirst(s.firstAcc, acc), Some(acc), None)
  {
    var rec := IndexLine(acc, idx);
    assert IndexLine(acc, pageNo + 1 + s.alignNo) == rec;
  }

  /** An alignment page, on a loop that has not stopped, only counts itself. */
  lemma StepOnAlignment(s: Scan, pageNo: nat, text: string)
    requires s.shortPage.None? && IsAlignment(text)
    ensures ScanStep(s, pageNo, text) == s.(alignNo := s.alignNo + 1)
  {
  }

  /** A non-empty `first_acc` survives every loop step. */
  lemma StepKeepsFirst(s: Scan, pageNo: nat, text: string, acc: string)
    requires s.firstAcc == Some(acc) && acc != ""
    ensures ScanStep(s, pageNo, text).firstAcc == Some(acc)
  {
  }

  /** The scan of a non-empty document is one loop step after the scan of all but its last page. */
  lemma ScanPagesLast(pages: seq<string>)
    requires |pages| > 0
    ensures ScanPages(pages) == ScanStep(ScanPages(pages[..|pages| - 1]), |pages| - 1, pages[|pages| - 1])
  {
  }

  /** On a prefix scanned without stopping, a readable bill page appends its record and its position. */
  lemma LastBillPage(pages: seq<string>)
    requires |pages| > 0 && !IsAlignment(pages[|pages| - 1]) && AccountOf(pages[|pages| - 1]).Some?
    requires var sp := ScanPages(pages[..|pages| - 1]);
             sp.shortPage.None? && sp.alignNo == AlignCount(pages[..|pages| - 1])
    ensures var n, pre := |pages|, pages[..|pages| - 1];
            var s := ScanPages(pages);
            && s.lines == ScanPages(pre).lines + [IndexLine(AccountOf(pages[n - 1]).value, IndexNumber(pages, n - 1))]
            && BillPages(pages) == BillPages(pre) + [n - 1]
            && s.shortPage.None? && s.alignNo == AlignCount(pages)
  {
    var n, pre, last := |pages|, pages[..|pages| - 1], pages[|pages| - 1];
    var sp := ScanPages(pre);
    LastBillPagePositions(pages);
    ScanPagesLast(pages);
    StepOnBill(sp, n - 1, last, AccountOf(last).value, IndexNumber(pages, n - 1));
  }

  /** A last page that is not an alignment page is a bill page and leaves the alignment count as it was. */
  lemma LastBillPagePositions(pages: seq<string>)
    requires |pages| > 0 && !IsAlignment(pages[|pages| - 1])
    ensures var pre := pages[..|pages| - 1];
            && BillPages(pages) == BillPages(pre) + [|pages| - 1]
            && AlignCount(pages) == AlignCount(pre)
  {
  }

  /** A readable bill page adds its record at the end. */
  lemma RecordsExtendByBill(pages: seq<string>)
    requires |pages| > 0 && !IsAlignment(pages[|pages| - 1]) && AccountOf(pages[|pages| - 1]).Some?
    requires RecordsMatch(pages[..|pages| - 1])
    ensures RecordsMatch(pages)
  {
    var n := |pages|;
    var pre := pages[..n - 1];
    var s, b := ScanPages(pages), BillPages(pages);
    var sp, bp := ScanPages(pre), BillPages(pre);
    LastBillPage(pages);
    assert s.lines[..|bp|] == sp.lines && b[..|bp|] == bp;
    EarlierRecordsKept(pages, s.lines, b, sp.lines, bp);
    forall k | 0 <= k < |b|
      ensures AccountOf(pages[b[k]]).Some?
      ensures s.lines[k] == IndexLine(AccountOf(pages[b[k]]).value, IndexNumber(pages, b[k]))
    {
      if k == |bp| {
        assert b[k] == n - 1;
      }
    }
  }

  lemma {:induction false} RecordsMatchAll(pages: seq<string>)
    requires AllBillsReadable(pages)
    ensures RecordsMatch(pages)
    decreases |pages|
  {
    if pages != [] {
      ReadablePrefix(pages, |pages| - 1);
      RecordsMatchAll(pages[..|pages| - 1]);
      if IsAlignment(pages[|pages| - 1]) {
        RecordsExtendByAlignment(pages);
      } else {
        RecordsExtendByBill(pages);
      }
    }
  }

  /**
   * A document whose bill pages are all readable gets one record per bill
   * page, in page order: the k-th record holds the k-th bill page's account
   * and index number.
   */
  lemma ScanWritesOneRecordPerBill(pages: seq<string>)
    requires AllBillsReadable(pages)
    ensures var s, b := ScanPages(pages), BillPages(pages);
            && s.shortPage.None?
            && s.alignNo == AlignCount(pages)
            && |s.lines| == |b|
            && forall k :: 0 <= k < |b| ==>
                 s.lines[k] == IndexLine(AccountOf(pages[b[k]]).value, IndexNumber(pages, b[k]))
  {
    RecordsMatchAll(pages);
  }

  lemma {:induction false} AlignCountGrows(pages: seq<string>, p: nat, q: nat)
    requires p <= q <= |pages|
    ensures AlignCount(pages[..p]) <= AlignCount(pages[..q])
    decreases q - p
  {
    if p < q {
      AlignCountGrows(pages, p, q - 1);
      assert pages[..q][..q - 1] == pages[..q - 1];
    }
  }

  /** Index numbers strictly increase with the page position. */
  lemma IndexNumbersIncrease(pages: seq<string>, p: nat, q: nat)
    requires p < q < |pages|
    ensures IndexNumber(pages, p) < IndexNumber(pages, q)
  {
    AlignCountGrows(pages, p, q);
  }

  /** The records of a fully readable document carry strictly increasing index numbers. */
  lemma RecordsInIncreasingOrder(pages: seq<string>, j: nat, k: nat)
    requires AllBillsReadable(pages)
    requires j < k < |BillPages(pages)|
    ensures var b := BillPages(pages);
            && |ScanPages(pages).lines| == |b|
            && ScanPages(pages).lines[j] == IndexLine(AccountOf(pages[b[j]]).value, IndexNumber(pages, b[j]))
            && ScanPages(pages).lines[k] == IndexLine(AccountOf(pages[b[k]]).value, IndexNumber(pages, b[k]))
            && IndexNumber(pages, b[j]) < IndexNumber(pages, b[k])
  {
    ScanWritesOneRecordPerBill(pages);
    var b := BillPages(pages);
    IndexNumbersIncrease(pages, b[j], b[k]);
  }

  //---------------------------------------------------------------- first account

  /** The accounts of the bill pages, in page order. */
  function Accounts(pages: seq<string>): seq<string>
    requires AllBillsReadable(pages)
  {
    if pages == [] then []
    else
      var pre := pages[..|pages| - 1];
      assert AllBillsReadable(pre) by {
        forall p | 0 <= p < |pre| && !IsAlignment(pre[p]) ensures AccountOf(pre[p]).Some? {
          assert pre[p] == pages[p];
        }
      }
      var last := pages[|pages| - 1];
      if IsAlignment(last) then Accounts(pre) else Accounts(pre) + [AccountOf(last).value]
  }

  /** The k-th account is the ninth line of the k-th bill page. */
  lemma {:induction false} AccountsAreBillAccounts(pages: seq<string>)
    requires AllBillsReadable(pages)
    ensures var accs, b := Accounts(pages), BillPages(pages);
            && |accs| == |b|
            && forall k :: 0 <= k < |accs| ==> accs[k] == AccountOf(pages[b[k]]).value
    decreases |pages|
  {
    if pages != [] {
      var pre, last := pages[..|pages| - 1], pages[|pages| - 1];
      AccountsOfLastPage(pages);
      AccountsAreBillAccounts(pre);
      AccountsExtend(pages, Accounts(pre), BillPages(pre), Accounts(pages), BillPages(pages), IsAlignment(last));
    }
  }

  /** The step of AccountsAreBillAccounts, on plain values: `ap`/`bp` for the prefix, `accs`/`b` for all pages. */
  lemma AccountsExtend(pages: seq<string>, ap: seq<string>, bp: seq<nat>, accs: seq<string>, b: seq<nat>, skip: bool)
    requires |pages| > 0 && |ap| == |bp|
    requires forall k :: 0 <= k < |bp| ==>
               && bp[k] < |pages| - 1 && AccountOf(pages[..|pages| - 1][bp[k]]).Some?
               && ap[k] == AccountOf(pages[..|pages| - 1][bp[k]]).value
    requires skip ==> accs == ap && b == bp
    requires !skip ==> && AccountOf(pages[|pages| - 1]).Some?
                       && accs == ap + [AccountOf(pages[|pages| - 1]).value] && b == bp + [|pages| - 1]
    ensures |accs| == |b|
    ensures forall k :: 0 <= k < |accs| ==>
              b[k] < |pages| && AccountOf(pages[b[k]]).Some? && accs[k] == AccountOf(pages[b[k]]).value
  {
    var pre := pages[..|pages| - 1];
    forall k | 0 <= k < |accs|
      ensures b[k] < |pages| && AccountOf(pages[b[k]]).Some? && accs[k] == AccountOf(pages[b[k]]).value
    {
      if k < |ap| {
        assert accs[k] == ap[k] && b[k] == bp[k];
        assert pre[bp[k]] == pages[bp[k]];
      }
    }
  }

  /**
   * `first_acc or acc_no` folded over the accounts: the first non-empty
   * account, or "" when all are empty; None when there is none at all.
   */
  function FirstNonEmpty(accs: seq<string>): (r: Option<string>)
    ensures r.None? <==> accs == []
    ensures r.Some? && r.value != "" ==>
              exists i :: 0 <= i < |accs| && accs[i] == r.value && forall j :: 0 <= j < i ==> accs[j] == ""
    ensures r == Some("") ==> forall i :: 0 <= i < |accs| ==> accs[i] == ""
  {
    if accs == [] then None
    else if accs[0] != "" || |accs| == 1 then Some(accs[0])
    else
      var r := FirstNonEmpty(accs[1..]);
      assert r.Some? && r.value != "" ==>
               exists i :: 0 <= i < |accs| && accs[i] == r.value && forall j :: 0 <= j < i ==> accs[j] == "" by {
        if r.Some? && r.value != "" {
          var i :| 0 <= i < |accs[1..]| && accs[1..][i] == r.value && forall j :: 0 <= j < i ==> accs[1..][j] == "";
          assert accs[i + 1] == r.value;
          assert forall j :: 0 <= j < i + 1 ==> accs[j] == "" by {
            forall j | 0 <= j < i + 1 ensures accs[j] == "" {
              if j > 0 { assert accs[j] == accs[1..][j - 1]; }
            }
          }
        }
      }
      assert r == Some("") ==> forall i :: 0 <= i < |accs| ==> accs[i] == "" by {
        if r == Some("") {
          forall i | 0 <= i < |accs| ensures accs[i] == "" {
            if i > 0 { assert accs[i] == accs[1..][i - 1]; }
          }
        }
      }
      r
  }

  lemma {:induction false} FirstNonEmptyAppend(accs: seq<string>, acc: string)
    ensures FirstNonEmpty(accs + [acc]) == KeepFirst(FirstNonEmpty(accs), acc)
    decreases |accs|
  {
    if accs != [] {
      assert (accs + [acc])[0] == accs[0];
      assert (accs + [acc])[1..] == accs[1..] + [acc];
      if accs[0] == "" && |accs| > 1 {
        FirstNonEmptyAppend(accs[1..], acc);
      } else if accs[0] == "" {
        assert accs[1..] + [acc] == [acc];
      }
    }
  }

  /** `first_acc` ends as the first non-empty account of the bill pages. */
  lemma {:induction false} FirstAccountIsFirstNonEmpty(pages: seq<string>)
    requires AllBillsReadable(pages)
    ensures ScanPages(pages).firstAcc == FirstNonEmpty(Accounts(pages))
    decreases |pages|
  {
    if pages != [] {
      var n, pre, last := |pages|, pages[..|pages| - 1], pages[|pages| - 1];
      var sp := ScanPages(pre);
      ScanPagesLast(pages);
      AccountsOfLastPage(pages);
      FirstAccountIsFirstNonEmpty(pre);
      ScanStopsAtFirstShortPage(pre);
      if IsAlignment(last) {
        StepOnAlignment(sp, n - 1, last);
      } else {
        var acc := AccountOf(last).value;
        StepOnBill(sp, n - 1, last, acc, n + sp.alignNo);
        FirstNonEmptyAppend(Accounts(pre), acc);
      }
    }
  }

  lemma PrefixOfPrefix(pages: seq<string>, q: nat)
    requires q < |pages|
    ensures pages[..|pages| - 1][..q] == pages[..q]
  {
  }

  /** Once `first_acc` holds a non-empty account, later pages never change it. */
  lemma {:induction false} FirstAccountIsStable(pages: seq<string>, q: nat, acc: string)
    requires q <= |pages| && acc != ""
    requires ScanPages(pages[..q]).firstAcc == Some(acc)
    ensures ScanPages(pages).firstAcc == Some(acc)
    decreases |pages|
  {
    if q < |pages| {
      var n, pre := |pages|, pages[..|pages| - 1];
      ScanPagesLast(pages);
      PrefixOfPrefix(pages, q);
      FirstAccountIsStable(pre, q, acc);
      StepKeepsFirst(ScanPages(pre), n - 1, pages[n - 1], acc);
    } else {
      assert pages[..q] == pages;
    }
  }

  /** One more page adds its account to the list exactly when it is a bill page. */
  lemma AccountsOfLastPage(pages: seq<string>)
    requires |pages| > 0 && AllBillsReadable(pages)
    ensures AllBillsReadable(pages[..|pages| - 1])
    ensures var pre, last := pages[..|pages| - 1], pages[|pages| - 1];
            Accounts(pages) == if IsAlignment(last) then Accounts(pre) else Accounts(pre) + [AccountOf(last).value]
  {
    ReadablePrefix(pages, |pages| - 1);
  }

  /** On a readable prefix, one more page sets `acc_no` exactly when it is a bill page. */
  lemma AccNoOfLastPage(pages: seq<string>)
    requires |pages| > 0 && AllBillsReadable(pages)
    ensures var pre, last := pages[..|pages| - 1], pages[|pages| - 1];
            ScanPages(pages).accNo == if IsAlignment(last) then ScanPages(pre).accNo else AccountOf(last)
  {
    var n, pre, last := |pages|, pages[..|pages| - 1], pages[|pages| - 1];
    var sp := ScanPages(pre);
    ScanPagesLast(pages);
    ReadablePrefix(pages, n - 1);
    ScanStopsAtFirstShortPage(pre);
    if IsAlignment(last) {
      StepOnAlignment(sp, n - 1, last);
    } else {
      StepOnBill(sp, n - 1, last, AccountOf(last).value, n + sp.alignNo);
    }
  }

  /** `acc_no` ends as the account of the last bill page. */
  lemma {:induction false} LastAccountIsLast(pages: seq<string>)
    requires AllBillsReadable(pages)
    ensures var accs := Accounts(pages);
            ScanPages(pages).accNo == if accs == [] then None else Some(accs[|accs| - 1])
    decreases |pages|
  {
    if pages != [] {
      var pre, last := pages[..|pages| - 1], pages[|pages| - 1];
      AccountsOfLastPage(pages);
      LastAccountIsLast(pre);
      AccNoOfLastPage(pages);
      var ap, accNoPre, accs, accNo := Accounts(pre), ScanPages(pre).accNo, Accounts(pages), ScanPages(pages).accNo;
      LastOfAppend(ap, accNoPre, accs, accNo, IsAlignment(last), AccountOf(last));
    }
  }

  /** The step of LastAccountIsLast, on plain values: a bill page's account becomes both the last account and `acc_no`. */
  lemma LastOfAppend(accsPre: seq<string>, accNoPre: Option<string>, accs: seq<string>, accNo: Option<string>, skip: bool, acc: Option<string>)
    requires accNoPre == if accsPre == [] then None else Some(accsPre[|accsPre| - 1])
    requires !skip ==> acc.Some?
    requires accs == if skip then accsPre else accsPre + [acc.value]
    requires accNo == if skip then accNoPre else acc
    ensures accNo == if accs == [] then None else Some(accs[|accs| - 1])
  {
  }

  //---------------------------------------------------------------- outcome

  /**
   * create_index ends in one of three ways. It stops at the first bill page
   * with fewer than nine lines, holding the records of the pages before it.
   * A document without bill pages binds no account. Otherwise it has indexed
   * every page: the page count is the number of pages, with one record per
   * bill page, the first non-empty account and the last page's account.
   */
  lemma IndexOutcomeCases(pages: seq<string>)
    ensures var r := IndexOutcomeOf(pages);
            && (r.ShortPage? <==> !AllBillsReadable(pages))
            && (r.ShortPage? ==>
                  && r.page < |pages| && !IsAlignment(pages[r.page]) && AccountOf(pages[r.page]).None?
                  && AllBillsReadable(pages[..r.page]) && r.partial == ScanPages(pages[..r.page]).lines)
            && (r.NoAccount? <==> AllBillsReadable(pages) && BillPages(pages) == [])
            && (r.NoAccount? ==> r.pageCount == if pages == [] then 1 else |pages|)
            && (r.Indexed? ==>
                  var accs := Accounts(pages);
                  && r.pageCount == |pages| && |r.lines| == |BillPages(pages)| && accs != []
                  && Some(r.firstAcc) == FirstNonEmpty(accs) && r.lastAcc == accs[|accs| - 1])
  {
    if AllBillsReadable(pages) {
      OutcomeOfReadable(pages);
    } else {
      OutcomeOfShortPage(pages);
    }
  }

  /** A document with an unreadable bill page stops at the first one, keeping the records before it. */
  lemma OutcomeOfShortPage(pages: seq<string>)
    requires !AllBillsReadable(pages)
    ensures var r := IndexOutcomeOf(pages);
            && r.ShortPage?
            && r.page < |pages| && !IsAlignment(pages[r.page]) && AccountOf(pages[r.page]).None?
            && AllBillsReadable(pages[..r.page]) && r.partial == ScanPages(pages[..r.page]).lines
  {
    ScanStopsAtFirstShortPage(pages);
    var p := ScanPages(pages).shortPage.value;
    ScanStopsAtFirstShortPage(pages[..p]);
    assert pages[..p + 1][..p] == pages[..p];
    ScanStops(pages, p + 1);
  }

  /** A fully readable document is indexed, or binds no account when it has no bill page. */
  lemma OutcomeOfReadable(pages: seq<string>)
    requires AllBillsReadable(pages)
    ensures var r := IndexOutcomeOf(pages);
            && !r.ShortPage?
            && (r.NoAccount? <==> BillPages(pages) == [])
            && (r.NoAccount? ==> r.pageCount == if pages == [] then 1 else |pages|)
            && (r.Indexed? ==>
                  var accs := Accounts(pages);
                  && r.pageCount == |pages| && |r.lines| == |BillPages(pages)| && accs != []
                  && Some(r.firstAcc) == FirstNonEmpty(accs) && r.lastAcc == accs[|accs| - 1])
  {
    ScanWritesOneRecordPerBill(pages);
    LastAccountIsLast(pages);
    FirstAccountIsFirstNonEmpty(pages);
  }

  //---------------------------------------------------------------- check-out report

  /** The entries whose check failed, in their original order. */
  function Failing(results: seq<(string, bool)>): (probs: seq<(string, bool)>)
    ensures forall e :: e in probs <==> e in results && !e.1
    ensures |probs| <= |results|
  {
    if results == [] then []
    else (if results[0].1 then [] else [results[0]]) + Failing(results[1..])
  }

  datatype CheckoutReport = Correct | Problems(probs: seq<(string, bool)>)

  /** checkout_idx: correct when every check passed, otherwise the failed checks. */
  function CheckoutIdx(results: seq<(string, bool)>): (c: CheckoutReport)
    ensures c.Correct? <==> forall i :: 0 <= i < |results| ==> results[i].1
    ensures c.Problems? ==> c.probs == Failing(results) && c.probs != []
  {
    if forall i :: 0 <= i < |results| ==> results[i].1 then Correct
    else
      var i :| 0 <= i < |results| && !results[i].1;
      assert results[i] in Failing(results);
      Problems(Failing(results))
  }

  //---------------------------------------------------------------- rename decision in main

  /** The position of the last '.' in `name`, or -1. */
  function LastDot(name: string): (i: int)
    ensures -1 <= i < |name|
    ensures i >= 0 ==> name[i] == '.'
    ensures forall j :: i < j < |name| ==> name[j] != '.'
  {
    if name == [] then -1
    else if name[|name| - 1] == '.' then |name| - 1
    else LastDot(name[..|name| - 1])
  }

  /** pathlib's suffix: from the last dot on, unless that dot is the first or the last character. */
  function Suffix(name: string): string
  {
    var i := LastDot(name);
    if 0 < i < |name| - 1 then name[i..] else ""
  }

  /** pathlib's stem: the name without its suffix. */
  function Stem(name: string): (stem: string)
    ensures name != "" ==> stem != ""
  {
    var i := LastDot(name);
    if 0 < i < |name| - 1 then name[..i] else name
  }

  /** `with_suffix(suffix)`: the stem followed by the new suffix. */
  function WithSuffix(name: string, suffix: string): string
  {
    Stem(name) + suffix
  }

  /** Renaming to the composed name with `.pdf` gives a name whose suffix is `.pdf` and whose stem is the composed stem. */
  lemma PdfSuffixed(name: string)
    requires name != ""
    ensures Suffix(WithSuffix(name, ".pdf")) == ".pdf"
    ensures Stem(WithSuffix(name, ".pdf")) == Stem(name)
  {
    var stem := Stem(name);
    var n := stem + ".pdf";
    assert n[|stem|] == '.';
    assert forall j :: |stem| < j < |n| ==> n[j] != '.';
    assert LastDot(n) == |stem|;
    assert n[|stem|..] == ".pdf";
    assert n[..|stem|] == stem;
  }

  /**
   * main's rename decision: the input file is renamed to the composed name
   * with a `.pdf` suffix exactly when its name differs from the composed name.
   */
  function RenamePlan(inputFn: string, composed: string): (plan: Option<(string, string)>)
    requires PlainName(composed)
    ensures plan.None? <==> inputFn == composed
    ensures plan.Some? ==> plan.value.0 == inputFn
    ensures plan.Some? ==> Suffix(plan.value.1) == ".pdf" && Stem(plan.value.1) == Stem(composed)
  {
    if inputFn != composed then
      PdfSuffixed(composed);
      Some((inputFn, WithSuffix(composed, ".pdf")))
    else None
  }
}
