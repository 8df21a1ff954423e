/** The two parsers of CPU lists (cpuset(7), section Formats, List format): ParseCPUs of
    collectors/slurmCgroupMetric.go and fileToList of pkg/ccTopology/ccTopology.go. */
module CpuList {
  import opened Common
  import opened Sequences
  import opened Text

  /** start, start + 1, ..., end */
  function Interval(start: int, end: int): seq<int>
    decreases end - start
  {
    if start > end then [] else Interval(start, end - 1) + [end]
  }

  // ----- specification: each parser works piece by piece, a bad piece spoils the list -----

  /** One piece as ParseCPUs reads it. */
  function CpuPiece(r: string): Option<seq<int>> {
    if '-' in r then
      var parts := Split(r, '-');
      if |parts| != 2 then None
      else
        match (Atoi(TrimSpace(parts[0])), Atoi(TrimSpace(parts[1])))
        case (Some(start), Some(end)) => Some(Interval(start, end))
        case _ => None
    else
      match Atoi(TrimSpace(r))
      case Some(cpu) => Some([cpu])
      case None => None
  }

  /** One piece as fileToList reads it; a piece with more than one dash counts as empty. */
  function FilePiece(r: string): Option<seq<int>> {
    var parts := Split(r, '-');
    if |parts| == 1 then
      match Atoi(parts[0])
      case Some(v) => Some([v])
      case None => None
    else if |parts| == 2 then
      match (Atoi(parts[0]), Atoi(parts[1]))
      case (Some(start), Some(end)) => Some(Interval(start, end))
      case _ => None
    else Some([])
  }

  /** The values of all pieces, if every piece can be read. */
  function Values(piece: string -> Option<seq<int>>, pieces: seq<string>): Option<seq<int>> {
    if pieces == [] then Some([])
    else
      match (Values(piece, pieces[..|pieces| - 1]), piece(pieces[|pieces| - 1]))
      case (Some(a), Some(b)) => Some(a + b)
      case _ => None
  }

  function CpuSet(s: string): Option<seq<int>> {
    if s == "" then Some([]) else Values(CpuPiece, Split(s, ','))
  }

  function FileList(s: string): Option<seq<int>> {
    Values(FilePiece, Split(TrimSpace(s), ','))
  }

  lemma {:induction false} Spoiled(piece: string -> Option<seq<int>>, pieces: seq<string>, i: nat)
    requires i <= |pieces| && Values(piece, pieces[..i]).None?
    ensures Values(piece, pieces).None?
    decreases |pieces| - i
  {
    if i == |pieces| {
      assert pieces[..i] == pieces;
    } else {
      assert pieces[..i + 1][..i] == pieces[..i];
      Spoiled(piece, pieces, i + 1);
    }
  }

  /** One more piece. */
  lemma ValuesStep(piece: string -> Option<seq<int>>, pieces: seq<string>, i: nat, list: seq<int>)
    requires i < |pieces| && Values(piece, pieces[..i]) == Some(list)
    ensures match piece(pieces[i])
            case None => Values(piece, pieces).None?
            case Some(more) => Values(piece, pieces[..i + 1]) == Some(list + more)
  {
    assert pieces[..i + 1][..i] == pieces[..i];
    if piece(pieces[i]).None? {
      Spoiled(piece, pieces, i + 1);
    }
  }

  // ----- the code -----

  /** The loop over the values of a range. */
  method AppendRange(list: seq<int>, start: int, end: int) returns (result: seq<int>)
    ensures result == list + Interval(start, end)
  {
    result := list;
    var i := start;
    while i <= end
      invariant start <= i && (i <= end + 1 || i == start)
      invariant result == list + Interval(start, i - 1)
    {
      result := result + [i];
      i := i + 1;
    }
    assert Interval(start, i - 1) == Interval(start, end);
  }

  method ParseCPUs(cpuset: string) returns (list: Option<seq<int>>)
    ensures list == CpuSet(cpuset)
  {
    var result: seq<int> := [];
    if cpuset == "" {
      return Some(result);
    }
    var pieces := Split(cpuset, ',');
    for k := 0 to |pieces|
      invariant Values(CpuPiece, pieces[..k]) == Some(result)
    {
      var r := pieces[k];
      ValuesStep(CpuPiece, pieces, k, result);
      if '-' in r {
        var parts := Split(r, '-');
        if |parts| != 2 {
          return None;
        }
        var start := Atoi(TrimSpace(parts[0]));
        if start.None? {
          return None;
        }
        var end := Atoi(TrimSpace(parts[1]));
        if end.None? {
          return None;
        }
        result := AppendRange(result, start.value, end.value);
      } else {
        var cpu := Atoi(TrimSpace(r));
        if cpu.None? {
          return None;
        }
        result := result + [cpu.value];
      }
    }
    assert pieces[..|pieces|] == pieces;
    return Some(result);
  }

  method FileToList(buffer: string) returns (result: Option<seq<int>>)
    ensures result == FileList(buffer)
  {
    var list: seq<int> := [];
    var pieces := Split(TrimSpace(buffer), ',');
    for k := 0 to |pieces|
      invariant Values(FilePiece, pieces[..k]) == Some(list)
    {
      ValuesStep(FilePiece, pieces, k, list);
      var valueRange := Split(pieces[k], '-');
      if |valueRange| == 1 {
        var singleValue := Atoi(valueRange[0]);
        if singleValue.None? {
          return None;
        }
        list := list + [singleValue.value];
      } else if |valueRange| == 2 {
        var startValue := Atoi(valueRange[0]);
        if startValue.None? {
          return None;
        }
        var endValue := Atoi(valueRange[1]);
        if endValue.None? {
          return None;
        }
        list := AppendRange(list, startValue.value, endValue.value);
      } else {
        assert list + [] == list;
      }
    }
    assert pieces[..|pieces|] == pieces;
    return Some(list);
  }

  // ----- the parsers agree -----

  /** Number of dashes in a piece is at most one. */
  predicate Plain(r: string) {
    |Split(r, '-')| <= 2
  }

  /** What fileToList refuses: at most one dash, and beside it something that is not exactly a number. */
  predicate Malformed(r: string) {
    var parts := Split(r, '-');
    |parts| <= 2 && exists k :: 0 <= k < |parts| && Atoi(parts[k]).None?
  }

  /** What ParseCPUs refuses: two dashes, or something that is not a number with white space around it. */
  predicate Refused(r: string) {
    var parts := Split(r, '-');
    |parts| > 2 || exists k :: 0 <= k < |parts| && Atoi(TrimSpace(parts[k])).None?
  }

  lemma MalformedPiece(r: string)
    ensures FilePiece(r).None? <==> Malformed(r)
  {
    hide Split, Atoi;
    if |Split(r, '-')| <= 2 {
      SomePartBad(Split(r, '-'));
    }
  }

  lemma SomePartBad(parts: seq<string>)
    requires 1 <= |parts| <= 2
    ensures (exists k :: 0 <= k < |parts| && Atoi(parts[k]).None?) <==>
            Atoi(parts[0]).None? || Atoi(parts[|parts| - 1]).None?
  {
    hide Atoi;
  }

  lemma RefusedPiece(r: string)
    ensures CpuPiece(r).None? <==> Refused(r)
  {
    var parts := Split(r, '-');
    SplitCount(r, '-');
    if |parts| == 1 {
      SplitOne(r, '-');
    }
    if CpuPiece(r).None? && |parts| <= 2 {
      assert Atoi(TrimSpace(parts[0])).None? || Atoi(TrimSpace(parts[|parts| - 1])).None?;
    }
  }

  /** A piece that both can read means the same to both. */
  lemma PiecesAgree(r: string)
    requires !Malformed(r) && !Refused(r)
    ensures CpuPiece(r) == FilePiece(r)
  {
    var parts := Split(r, '-');
    SplitCount(r, '-');
    forall k | 0 <= k < |parts| ensures TrimSpace(parts[k]) == parts[k] {
      AtoiTrimmed(parts[k]);
    }
    if |parts| == 1 {
      SplitOne(r, '-');
    }
  }

  lemma {:induction false} SameValues(
    f: string -> Option<seq<int>>, g: string -> Option<seq<int>>, a: seq<string>, b: seq<string>)
    requires |a| == |b| && forall i :: 0 <= i < |a| ==> f(a[i]) == g(b[i])
    ensures Values(f, a) == Values(g, b)
  {
    if a != [] {
      SameValues(f, g, a[..|a| - 1], b[..|b| - 1]);
    }
  }

  lemma {:induction false} OnePieceSpoils(piece: string -> Option<seq<int>>, pieces: seq<string>)
    ensures Values(piece, pieces).None? <==> exists i :: 0 <= i < |pieces| && piece(pieces[i]).None?
  {
    if pieces != [] {
      var n := |pieces| - 1;
      OnePieceSpoils(piece, pieces[..n]);
      if i :| 0 <= i < n && piece(pieces[..n][i]).None? {
        assert piece(pieces[i]).None?;
      }
    }
  }

  lemma PaddedStart(r: string, c: char)
    requires Space(c)
    ensures CpuPiece([c] + r) == CpuPiece(r)
  {
    assert ([c] + r)[1..] == r;
    TrimStart(r, c);
    var parts := Split(r, '-');
    assert Split([c] + r, '-') == [[c] + parts[0]] + parts[1..];
    TrimStart(parts[0], c);
  }

  lemma PaddedEnd(r: string, c: char)
    requires Space(c)
    ensures CpuPiece(r + [c]) == CpuPiece(r)
  {
    TrimEnd(r, c);
    SplitLast(r, '-', c);
    var parts := Split(r, '-');
    TrimEnd(parts[|parts| - 1], c);
  }

  lemma LeadingSpace(s: string)
    requires s != [] && Space(s[0])
    ensures Values(CpuPiece, Split(s, ',')) == Values(CpuPiece, Split(s[1..], ','))
  {
    var rest := Split(s[1..], ',');
    PaddedStart(rest[0], s[0]);
    SameValues(CpuPiece, CpuPiece, Split(s, ','), rest);
  }

  lemma LastPieceExtended(ps: seq<string>, c: char)
    requires ps != [] && Space(c)
    ensures Values(CpuPiece, LastExtended(ps, c)) == Values(CpuPiece, ps)
  {
    hide CpuPiece;
    var n := |ps| - 1;
    PaddedEnd(ps[n], c);
    Appended(ps[..n], ps[n] + [c]);
  }

  lemma TrailingSpace(t: string, c: char)
    requires Space(c)
    ensures Values(CpuPiece, Split(t + [c], ',')) == Values(CpuPiece, Split(t, ','))
  {
    hide Split, Values, CpuPiece;
    SplitLast(t, ',', c);
    LastPieceExtended(Split(t, ','), c);
  }

  /** White space around the text makes no difference to ParseCPUs, unless nothing else is left. */
  lemma {:induction false} TrimmedValues(s: string)
    ensures Values(CpuPiece, Split(s, ',')) == Values(CpuPiece, Split(TrimSpace(s), ','))
    decreases |s|
  {
    if s == [] {
    } else if Space(s[0]) {
      LeadingSpace(s);
      TrimmedValues(s[1..]);
    } else if Space(s[|s| - 1]) {
      var t, c := s[..|s| - 1], s[|s| - 1];
      assert s == t + [c];
      TrailingSpace(t, c);
      TrimmedValues(t);
    }
  }

  lemma AllPiecesAgree(pieces: seq<string>)
    requires forall i :: 0 <= i < |pieces| ==> !Refused(pieces[i]) && !Malformed(pieces[i])
    ensures Values(CpuPiece, pieces) == Values(FilePiece, pieces)
  {
    forall i | 0 <= i < |pieces| ensures CpuPiece(pieces[i]) == FilePiece(pieces[i]) {
      PiecesAgree(pieces[i]);
    }
    SameValues(CpuPiece, FilePiece, pieces, pieces);
  }

  /** On every text the two parsers give the same list, or both give none, exactly if the text is not empty and one
      parser refuses some piece of the trimmed text exactly if the other one does. */
  lemma ParsersAgreeExactly(s: string)
    ensures var pieces := Split(TrimSpace(s), ',');
      CpuSet(s) == FileList(s) <==>
        && s != ""
        && ((exists i :: 0 <= i < |pieces| && Refused(pieces[i])) <==>
            (exists i :: 0 <= i < |pieces| && Malformed(pieces[i])))
  {
    hide Split, Values, CpuPiece, FilePiece, Refused, Malformed;
    var pieces := Split(TrimSpace(s), ',');
    forall i | 0 <= i < |pieces|
      ensures CpuPiece(pieces[i]).None? <==> Refused(pieces[i])
      ensures FilePiece(pieces[i]).None? <==> Malformed(pieces[i])
    {
      RefusedPiece(pieces[i]);
      MalformedPiece(pieces[i]);
    }
    OnePieceSpoils(CpuPiece, pieces);
    OnePieceSpoils(FilePiece, pieces);
    TrimmedValues(s);
    if forall i :: 0 <= i < |pieces| ==> !Refused(pieces[i]) && !Malformed(pieces[i]) {
      AllPiecesAgree(pieces);
    }
    if s == "" {
      EmptyText();
    }
  }

  /** The empty text: an empty list for one parser, an error for the other. */
  lemma EmptyText()
    ensures CpuSet("") == Some([]) && FileList("").None?
  {
    assert Split("", ',') == [""] && Split("", '-') == [""];
    assert [""][..0] == [];
  }

  /** In the list format there is no white space: then the parsers differ only at the empty text and at texts with a
      piece with two dashes and no malformed piece. */
  lemma ParsersAgreeOnFormat(s: string)
    requires forall c :: c in s ==> !Space(c)
    ensures var pieces := Split(s, ',');
      CpuSet(s) == FileList(s) <==>
        && s != ""
        && ((forall i :: 0 <= i < |pieces| ==> Plain(pieces[i]))
            || exists i :: 0 <= i < |pieces| && Malformed(pieces[i]))
  {
    TrimNothing(s);
    var pieces := Split(s, ',');
    forall i | 0 <= i < |pieces| ensures Refused(pieces[i]) <==> !Plain(pieces[i]) || Malformed(pieces[i]) {
      RefusedWithoutSpace(s, pieces[i]);
    }
    ParsersAgreeExactly(s);
  }

  lemma RefusedWithoutSpace(s: string, r: string)
    requires (forall c :: c in s ==> !Space(c)) && r in Split(s, ',')
    ensures Refused(r) <==> !Plain(r) || Malformed(r)
  {
    SplitPieces(s, ',', r);
    var parts := Split(r, '-');
    forall k | 0 <= k < |parts| ensures TrimSpace(parts[k]) == parts[k] {
      SplitPieces(r, '-', parts[k]);
      TrimNothing(parts[k]);
    }
  }

  // ----- parsing undoes rendering -----

  /** A range of CPUs. */
  datatype Range = Range(lo: nat, hi: nat)

  predicate ValidRanges(rs: seq<Range>) {
    forall i :: 0 <= i < |rs| ==> rs[i].lo <= rs[i].hi <= INT_MAX
  }

  /** A single CPU, or first and last with a dash between them. */
  function RenderRange(r: Range): string {
    if r.lo == r.hi then Decimal(r.lo) else Decimal(r.lo) + ['-'] + Decimal(r.hi)
  }

  function Pieces(rs: seq<Range>): seq<string> {
    seq(|rs|, i requires 0 <= i < |rs| => RenderRange(rs[i]))
  }

  function Render(rs: seq<Range>): string {
    Join(Pieces(rs), ',')
  }

  function Expand(rs: seq<Range>): seq<int> {
    if rs == [] then [] else Expand(rs[..|rs| - 1]) + Interval(rs[|rs| - 1].lo, rs[|rs| - 1].hi)
  }

  predicate ListChar(c: char) {
    Digit(c) || c == '-' || c == ','
  }

  lemma NumberText(n: nat)
    requires n <= INT_MAX
    ensures var t := Decimal(n);
            && t != "" && '-' !in t && ',' !in t && TrimSpace(t) == t && Atoi(t) == Some(n)
            && (forall c :: c in t ==> ListChar(c))
  {
    forall c | c in Decimal(n) ensures Digit(c) && !Space(c) {
      DecimalPlain(n, c);
    }
    DecimalDigits(n);
    AtoiDecimal(n);
    TrimNothing(Decimal(n));
  }

  lemma SinglePiece(n: nat)
    requires n <= INT_MAX
    ensures CpuPiece(Decimal(n)) == Some([n as int]) && Plain(Decimal(n))
  {
    NumberText(n);
    SplitOne(Decimal(n), '-');
  }

  lemma DashedPiece(lo: nat, hi: nat)
    requires lo <= hi <= INT_MAX
    ensures var t := Decimal(lo) + ['-'] + Decimal(hi);
            CpuPiece(t) == Some(Interval(lo, hi)) && Plain(t)
  {
    var t := Decimal(lo) + ['-'] + Decimal(hi);
    NumberText(lo);
    NumberText(hi);
    SplitFirst(Decimal(lo), '-', Decimal(hi));
    SplitOne(Decimal(hi), '-');
    assert t[|Decimal(lo)|] == '-';
  }

  /** A single piece with two dashes is an error for one parser and an empty list for the other. */
  lemma TwoDashesDiffer(s: string)
    requires (forall c :: c in s ==> c != ',' && !Space(c)) && |Split(s, '-')| > 2
    ensures CpuSet(s).None? && FileList(s) == Some([])
  {
    TrimNothing(s);
    SplitOne(s, ',');
    RefusedPiece(s);
    OnePieceSpoils(CpuPiece, [s]);
    assert CpuPiece([s][0]).None?;
    OneValue(FilePiece, [s]);
  }

  lemma OneValue(piece: string -> Option<seq<int>>, pieces: seq<string>)
    requires |pieces| == 1 && piece(pieces[0]).Some?
    ensures Values(piece, pieces) == piece(pieces[0])
  {
    assert pieces[..0] == [];
    var none: seq<int> := [];
    assert none + piece(pieces[0]).value == piece(pieces[0]).value;
  }

  /** A space after the comma is an error for one parser only. */
  lemma InnerSpaceDiffers(s: string, first: string, second: string)
    requires Split(s, ',') == [first, [' '] + second] && TrimSpace(s) == s
    requires CpuPiece(first).Some? && CpuPiece(second).Some? && '-' !in second
    ensures CpuSet(s).Some? && FileList(s).None?
  {
    var pieces := [first, [' '] + second];
    PaddedStart(second, ' ');
    OnePieceSpoils(CpuPiece, pieces);
    SpacedNumber(second);
    assert FilePiece(pieces[1]).None?;
    OnePieceSpoils(FilePiece, pieces);
  }

  lemma SpacedNumber(t: string)
    requires '-' !in t
    ensures FilePiece([' '] + t).None?
  {
    var r := [' '] + t;
    SplitOne(r, '-');
    assert r[0] == ' ' && !Digit(r[0]) && !AllDigits(r);
    assert Atoi(r).None?;
  }

  /** For instance 0-1-2. */
  lemma ZeroOneTwo()
    ensures CpuSet("0-1-2").None? && FileList("0-1-2") == Some([])
  {
    var s := "0-1-2";
    SplitFirst("0", '-', "1-2");
    SplitFirst("1", '-', "2");
    assert s == "0" + ['-'] + "1-2" && "1-2" == "1" + ['-'] + "2";
    TwoDashesDiffer(s);
  }

  lemma RangePiece(r: Range)
    requires r.lo <= r.hi <= INT_MAX
    ensures CpuPiece(RenderRange(r)) == Some(Interval(r.lo, r.hi))
    ensures ',' !in RenderRange(r) && Plain(RenderRange(r)) && RenderRange(r) != ""
    ensures forall c :: c in RenderRange(r) ==> ListChar(c)
  {
    NumberText(r.lo);
    NumberText(r.hi);
    if r.lo == r.hi {
      SinglePiece(r.lo);
      assert Interval(r.lo, r.lo) == [r.lo as int];
    } else {
      DashedPiece(r.lo, r.hi);
    }
  }

  lemma RenderSplits(rs: seq<Range>)
    requires rs != [] && ValidRanges(rs)
    ensures Split(Render(rs), ',') == Pieces(rs)
  {
    forall i | 0 <= i < |rs| ensures ',' !in Pieces(rs)[i] {
      RangePiece(rs[i]);
    }
    JoinSplits(Pieces(rs), ',');
  }

  lemma {:induction false} RenderChars(rs: seq<Range>)
    requires rs != [] && ValidRanges(rs)
    ensures Render(rs) != "" && forall c :: c in Render(rs) ==> !Space(c)
  {
    RangePiece(rs[0]);
    if |rs| > 1 {
      RenderChars(rs[1..]);
      assert Pieces(rs)[1..] == Pieces(rs[1..]);
    }
  }

  lemma {:induction false} PiecesParse(rs: seq<Range>)
    requires ValidRanges(rs)
    ensures Values(CpuPiece, Pieces(rs)) == Some(Expand(rs))
  {
    if rs != [] {
      var n := |rs| - 1;
      PiecesParse(rs[..n]);
      RangePiece(rs[n]);
      assert Pieces(rs)[..n] == Pieces(rs[..n]);
    }
  }

  /** Both parsers turn a rendered list of ranges back into its CPUs. */
  lemma ParseRendered(rs: seq<Range>)
    requires rs != [] && ValidRanges(rs)
    ensures CpuSet(Render(rs)) == Some(Expand(rs)) && FileList(Render(rs)) == Some(Expand(rs))
  {
    RenderSplits(rs);
    RenderChars(rs);
    PiecesParse(rs);
    forall i | 0 <= i < |rs| ensures Plain(Pieces(rs)[i]) {
      RangePiece(rs[i]);
    }
    ParsersAgreeOnFormat(Render(rs));
  }

  /** A list of distinct CPUs in ascending order. */
  predicate Ascending(cpus: seq<nat>) {
    && (forall i :: 0 <= i < |cpus| ==> cpus[i] <= INT_MAX)
    && (forall i, j :: 0 <= i < j < |cpus| ==> cpus[i] < cpus[j])
  }

  /** One more CPU: it prolongs the last run or begins a new one. */
  function AddCpu(rs: seq<Range>, v: nat): seq<Range> {
    var m := |rs| - 1;
    if rs != [] && rs[m].hi + 1 == v then rs[..m] + [Range(rs[m].lo, v)] else rs + [Range(v, v)]
  }

  /** The maximal runs of consecutive CPUs, as the kernel prints them. */
  function Compress(cpus: seq<nat>): seq<Range> {
    if cpus == [] then [] else AddCpu(Compress(cpus[..|cpus| - 1]), cpus[|cpus| - 1])
  }

  lemma ExpandSnoc(rs: seq<Range>, r: Range)
    ensures Expand(rs + [r]) == Expand(rs) + Interval(r.lo, r.hi)
  {
    assert (rs + [r])[..|rs|] == rs;
  }

  lemma ExtendRun(rs: seq<Range>, lo: nat, v: nat)
    requires lo < v
    ensures Expand(rs + [Range(lo, v)]) == Expand(rs + [Range(lo, v - 1)]) + [v as int]
  {
    ExpandSnoc(rs, Range(lo, v));
    ExpandSnoc(rs, Range(lo, v - 1));
    assert Interval(lo, v) == Interval(lo, v - 1) + [v as int];
  }

  lemma AddCpuExpands(rs: seq<Range>, v: nat)
    requires ValidRanges(rs) && v <= INT_MAX
    ensures ValidRanges(AddCpu(rs, v)) && Expand(AddCpu(rs, v)) == Expand(rs) + [v as int]
  {
    var m := |rs| - 1;
    if rs != [] && rs[m].hi + 1 == v {
      ExtendRun(rs[..m], rs[m].lo, v);
      assert rs == rs[..m] + [Range(rs[m].lo, v - 1)];
    } else {
      ExpandSnoc(rs, Range(v, v));
      assert Interval(v, v) == [v as int];
    }
  }

  lemma {:induction false} CompressExpands(cpus: seq<nat>)
    requires forall i :: 0 <= i < |cpus| ==> cpus[i] <= INT_MAX
    ensures ValidRanges(Compress(cpus)) && Expand(Compress(cpus)) == cpus
    ensures cpus != [] ==> Compress(cpus) != []
  {
    if cpus != [] {
      var n := |cpus| - 1;
      CompressExpands(cpus[..n]);
      AddCpuExpands(Compress(cpus[..n]), cpus[n]);
      assert cpus == cpus[..n] + [cpus[n]];
    }
  }

  /** At least one CPU is missing between two neighbouring runs. */
  ghost predicate Gaps(rs: seq<Range>) {
    forall i :: 0 < i < |rs| ==> rs[i - 1].hi + 1 < rs[i].lo
  }

  lemma AddCpuKeepsGaps(rs: seq<Range>, cpu: nat)
    requires Gaps(rs) && (rs != [] ==> rs[|rs| - 1].hi < cpu)
    ensures var rs' := AddCpu(rs, cpu); Gaps(rs') && rs' != [] && rs'[|rs'| - 1].hi == cpu
  {
  }

  /** In an ascending list the runs are maximal: between two of them at least one CPU is missing. */
  lemma {:induction false} CompressMaximal(cpus: seq<nat>)
    requires Ascending(cpus)
    ensures Gaps(Compress(cpus))
    ensures cpus != [] ==> Compress(cpus) != [] && Compress(cpus)[|Compress(cpus)| - 1].hi == cpus[|cpus| - 1]
  {
    if cpus != [] {
      hide Gaps;
      var n := |cpus| - 1;
      CompressMaximal(cpus[..n]);
      AddCpuKeepsGaps(Compress(cpus[..n]), cpus[n]);
    }
  }

  /** Round trip: any list of CPUs, in particular any ascending one, rendered as the kernel renders it, is read back
      unchanged by both parsers; only the empty list is an error to fileToList. */
  lemma RoundTrip(cpus: seq<nat>)
    requires forall i :: 0 <= i < |cpus| ==> cpus[i] <= INT_MAX
    ensures CpuSet(Render(Compress(cpus))) == Some(cpus)
    ensures FileList(Render(Compress(cpus))) == if cpus == [] then None else Some(cpus)
  {
    CompressExpands(cpus);
    if cpus != [] {
      ParseRendered(Compress(cpus));
    } else {
      EmptyText();
    }
  }
}
