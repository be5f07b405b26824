/**
 * The non-UI parts of the settings dialog: the comma-separated text boxes
 * that edit the "ENG" and "CHINESE" lists, and the list of running
 * applications offered as a picklist.
 *
 * Saving splits each box on ',' dropping empty entries and trimming white
 * space (String.Split with RemoveEmptyEntries | TrimEntries); loading shows
 * each list joined with ", " (string.Join).
 */
module Settings {
  import opened Platform
  import ModeManager

  const EngKey: string := "ENG"
  const ChineseKey: string := "CHINESE"
  const Separator: char := ','
  const ListSeparator: string := ", "

  /** The contents of the two text boxes. */
  datatype Boxes = Boxes(eng: string, chn: string)

  /**
   * char.IsWhiteSpace: the space, line and paragraph separators of Unicode,
   * the control characters U+0009 to U+000D, and U+0085.
   */
  predicate IsWhiteSpace(c: char)
    ensures IsWhiteSpace(c) ==> c != Separator
    ensures c == ' ' || c == '\t' || c == '\n' || c == '\r' ==> IsWhiteSpace(c)
    ensures IsWhiteSpace(c) ==> !('0' <= c <= '9' || 'A' <= c <= 'Z' || 'a' <= c <= 'z' || c == '.')
  {
    || ('\U{0009}' <= c <= '\U{000D}')
    || c == '\U{0020}' || c == '\U{0085}' || c == '\U{00A0}' || c == '\U{1680}'
    || ('\U{2000}' <= c <= '\U{200A}')
    || c == '\U{2028}' || c == '\U{2029}' || c == '\U{202F}' || c == '\U{205F}' || c == '\U{3000}'
  }

  /** No white space at either end. */
  predicate IsTrimmed(s: string) {
    s == [] || (!IsWhiteSpace(s[0]) && !IsWhiteSpace(s[|s| - 1]))
  }

  /** What a saved list may hold: non-empty, trimmed, without a comma. */
  predicate IsEntry(e: string) {
    e != [] && IsTrimmed(e) && Separator !in e
  }

  predicate AllEntries(entries: seq<string>) {
    forall i :: 0 <= i < |entries| ==> IsEntry(entries[i])
  }

  predicate NoSeparator(parts: seq<string>) {
    forall i :: 0 <= i < |parts| ==> Separator !in parts[i]
  }

  /** The pieces of s between commas, empty ones included (String.Split without options). */
  function Pieces(s: string): (parts: seq<string>)
    ensures |parts| >= 1
    ensures NoSeparator(parts)
  {
    if s == [] then [[]]
    else
      var rest := Pieces(s[1..]);
      if s[0] == Separator then [[]] + rest
      else [[s[0]] + rest[0]] + rest[1..]
  }

  /** The number of characters in all of xs together. */
  function TotalLength(xs: seq<string>): nat {
    if xs == [] then 0 else |xs[0]| + TotalLength(xs[1..])
  }

  /**
   * string.Join: the elements in order with sep between neighbours, so the
   * text starts with the first element and is as long as the elements plus
   * one sep per gap.
   */
  function Join(sep: string, xs: seq<string>): (r: string)
    ensures xs == [] ==> r == []
    ensures xs != [] ==> xs[0] <= r && |r| == TotalLength(xs) + |sep| * (|xs| - 1)
  {
    if |xs| == 0 then []
    else if |xs| == 1 then xs[0]
    else xs[0] + sep + Join(sep, xs[1..])
  }

  /** Splitting on commas and joining with a comma gives back the text. */
  lemma {:induction false} JoinPieces(s: string)
    ensures Join([Separator], Pieces(s)) == s
  {
    if s != [] {
      JoinPieces(s[1..]);
      var rest := Pieces(s[1..]);
      if s[0] != Separator {
        if |rest| > 1 {
          assert [s[0]] + rest[0] + [Separator] + Join([Separator], rest[1..]) == [s[0]] + Join([Separator], rest);
          assert ([[s[0]] + rest[0]] + rest[1..])[1..] == rest[1..];
        }
        assert s == [s[0]] + s[1..];
      } else {
        assert s == [s[0]] + s[1..];
      }
    }
  }

  /** The number of white-space characters s starts with. */
  function LeadingSpace(s: string): (n: nat)
    ensures n <= |s| && Blank(s[..n])
    ensures n == |s| || !IsWhiteSpace(s[n])
  {
    if |s| > 0 && IsWhiteSpace(s[0]) then
      var k := LeadingSpace(s[1..]);
      assert s[..k + 1] == [s[0]] + s[1..][..k];
      k + 1
    else 0
  }

  /** The number of white-space characters s ends with. */
  function TrailingSpace(s: string): (n: nat)
    ensures n <= |s| && Blank(s[|s| - n..])
    ensures n == |s| || !IsWhiteSpace(s[|s| - n - 1])
  {
    if |s| > 0 && IsWhiteSpace(s[|s| - 1]) then
      var k := TrailingSpace(s[..|s| - 1]);
      BlankSuffix(s, k);
      k + 1
    else 0
  }

  lemma BlankSuffix(s: string, k: nat)
    requires k < |s| && IsWhiteSpace(s[|s| - 1])
    requires Blank(s[..|s| - 1][|s| - 1 - k..])
    ensures Blank(s[|s| - (k + 1)..])
  {
    var u := s[..|s| - 1][|s| - 1 - k..];
    var w := s[|s| - (k + 1)..];
    forall i | 0 <= i < k + 1
      ensures IsWhiteSpace(w[i])
    {
      if i < k {
        assert u[i] == w[i];
      }
    }
  }

  /** String.Trim: s without its leading and trailing white space. */
  function Trim(s: string): (r: string)
    ensures IsTrimmed(r) && |r| <= |s|
    ensures Separator !in s ==> Separator !in r
  {
    var t := s[LeadingSpace(s)..];
    t[..|t| - TrailingSpace(t)]
  }

  /** What Trim removes is white space at either end: the result is a slice of s. */
  lemma {:induction false} TrimIsSlice(s: string)
    ensures exists i :: 0 <= i <= |s| - |Trim(s)| && Trim(s) == s[i..i + |Trim(s)|]
                        && Blank(s[..i]) && Blank(s[i + |Trim(s)|..])
  {
    var i := LeadingSpace(s);
    var t := s[i..];
    var r := Trim(s);
    assert r == s[i..i + |r|];
    assert s[i + |r|..] == t[|t| - TrailingSpace(t)..];
  }

  /** Nothing but white space. */
  predicate Blank(s: string) {
    forall i :: 0 <= i < |s| ==> IsWhiteSpace(s[i])
  }

  /** One piece after trimming: dropped when it is empty. */
  function Keep(p: string): (kept: seq<string>)
    ensures |kept| <= 1
    ensures Separator !in p ==> AllEntries(kept)
  {
    var t := Trim(p);
    if t == [] then [] else [t]
  }

  lemma AppendAssoc<T>(x: seq<T>, y: seq<T>, z: seq<T>)
    ensures x + (y + z) == (x + y) + z
  {
  }

  /** The trimmed pieces that are not empty, in order (RemoveEmptyEntries after TrimEntries). */
  function Clean(parts: seq<string>): (entries: seq<string>)
    ensures |entries| <= |parts|
    ensures NoSeparator(parts) ==> AllEntries(entries)
  {
    if parts == [] then []
    else
      Keep(parts[0]) + Clean(parts[1..])
  }

  /** The list saved from the text of one box. */
  function ParseList(text: string): (entries: seq<string>)
    ensures AllEntries(entries)
  {
    Clean(Pieces(text))
  }

  /**
   * The text a list is shown as: the entries with ", " between neighbours;
   * an empty list shows as an empty box.
   */
  function FormatList(entries: seq<string>): (text: string)
    ensures entries == [] ==> text == []
    ensures entries != [] ==> entries[0] <= text && |text| == TotalLength(entries) + 2 * (|entries| - 1)
  {
    Join(ListSeparator, entries)
  }

  lemma CleanCons(p: string, rest: seq<string>)
    ensures Clean([p] + rest) == Keep(p) + Clean(rest)
  {
    assert ([p] + rest)[1..] == rest;
  }

  lemma {:induction false} CleanAppend(a: seq<string>, b: seq<string>)
    ensures Clean(a + b) == Clean(a) + Clean(b)
  {
    if a == [] {
      assert a + b == b;
    } else {
      var p, tail := a[0], a[1..];
      assert a == [p] + tail;
      assert a + b == [p] + (tail + b);
      CleanAppend(tail, b);
      CleanCons(p, tail + b);
      CleanCons(p, tail);
      AppendAssoc(Keep(p), Clean(tail), Clean(b));
    }
  }

  lemma PiecesCons(c: char, rest: string)
    ensures Pieces([c] + rest) == if c == Separator then [[]] + Pieces(rest)
                                  else [[c] + Pieces(rest)[0]] + Pieces(rest)[1..]
  {
    assert ([c] + rest)[1..] == rest;
  }

  lemma {:induction false} PiecesAppend(a: string, b: string)
    ensures Pieces(a + [Separator] + b) == Pieces(a) + Pieces(b)
  {
    if a == [] {
      assert a + [Separator] + b == [Separator] + b;
      PiecesCons(Separator, b);
    } else {
      var c, tail := a[0], a[1..];
      assert a == [c] + tail;
      assert a + [Separator] + b == [c] + (tail + [Separator] + b);
      PiecesAppend(tail, b);
      PiecesCons(c, tail + [Separator] + b);
      PiecesCons(c, tail);
      var pt, pb := Pieces(tail), Pieces(b);
      if c == Separator {
        AppendAssoc([[]], pt, pb);
      } else {
        assert (pt + pb)[0] == pt[0];
        assert (pt + pb)[1..] == pt[1..] + pb;
        AppendAssoc([[c] + pt[0]], pt[1..], pb);
      }
    }
  }

  /**
   * Entries keep their left-to-right order and duplicates are kept: the list
   * saved from two texts joined by a comma is the two lists one after the other.
   */
  lemma {:induction false} ParseListAppend(a: string, b: string)
    ensures ParseList(a + [Separator] + b) == ParseList(a) + ParseList(b)
  {
    PiecesAppend(a, b);
    CleanAppend(Pieces(a), Pieces(b));
  }

  lemma {:induction false} TrimLeadingSpace(s: string)
    ensures Trim([' '] + s) == Trim(s)
  {
    assert ([' '] + s)[1..] == s;
  }

  lemma {:induction false} TrimOfTrimmed(s: string)
    requires IsTrimmed(s)
    ensures Trim(s) == s
  {
  }

  lemma {:induction false} PiecesWithoutSeparator(s: string)
    requires Separator !in s
    ensures Pieces(s) == [s]
  {
    if s != [] {
      PiecesWithoutSeparator(s[1..]);
      assert s == [s[0]] + s[1..];
    }
  }

  /** A leading space does not change the saved list. */
  lemma {:induction false} ParseListLeadingSpace(s: string)
    ensures ParseList([' '] + s) == ParseList(s)
  {
    var rest := Pieces(s);
    PiecesCons(' ', s);
    assert rest == [rest[0]] + rest[1..];
    CleanCons([' '] + rest[0], rest[1..]);
    CleanCons(rest[0], rest[1..]);
    TrimLeadingSpace(rest[0]);
  }

  /** A valid entry alone is saved as itself. */
  lemma ParseListSingle(e: string)
    requires IsEntry(e)
    ensures ParseList(e) == [e]
  {
    PiecesWithoutSeparator(e);
    TrimOfTrimmed(e);
    assert Clean([e]) == Keep(e) + Clean([]);
  }

  lemma FormatListCons(entries: seq<string>)
    requires |entries| > 1
    ensures FormatList(entries) == entries[0] + [Separator] + ([' '] + FormatList(entries[1..]))
  {
    var rest := FormatList(entries[1..]);
    assert FormatList(entries) == entries[0] + ListSeparator + rest;
  }

  lemma AllEntriesTail(entries: seq<string>)
    requires AllEntries(entries) && entries != []
    ensures IsEntry(entries[0]) && AllEntries(entries[1..])
  {
    var tail := entries[1..];
    forall i | 0 <= i < |tail| ensures IsEntry(tail[i]) {
      assert tail[i] == entries[i + 1];
    }
  }

  lemma RoundTripStep(e: string, text: string, rest: string, tail: seq<string>)
    requires IsEntry(e)
    requires text == e + [Separator] + ([' '] + rest)
    requires ParseList(rest) == tail
    ensures ParseList(text) == [e] + tail
  {
    ParseListAppend(e, [' '] + rest);
    ParseListLeadingSpace(rest);
    ParseListSingle(e);
  }

  /**
   * Round trip: a list of entries that are non-empty, trimmed and free of
   * commas is saved back exactly as it was shown.
   */
  lemma {:induction false} ParseFormatRoundTrip(entries: seq<string>)
    requires AllEntries(entries)
    ensures ParseList(FormatList(entries)) == entries
  {
    if entries != [] {
      AllEntriesTail(entries);
      var e, tail := entries[0], entries[1..];
      if tail == [] {
        ParseListSingle(e);
      } else {
        FormatListCons(entries);
        ParseFormatRoundTrip(tail);
        RoundTripStep(e, FormatList(entries), FormatList(tail), tail);
        assert entries == [e] + tail;
      }
    }
  }

  /**
   * OnSaveClicked: the saved dictionary has exactly the two lists, each parsed
   * from its box.
   */
  function OnSave(boxes: Boxes): (json: ModeManager.Config)
    ensures forall k :: k in json <==> k == EngKey || k == ChineseKey
    ensures json[EngKey] == ParseList(boxes.eng) && json[ChineseKey] == ParseList(boxes.chn)
    ensures AllEntries(json[EngKey]) && AllEntries(json[ChineseKey])
  {
    assert |EngKey| != |ChineseKey|;
    map[EngKey := ParseList(boxes.eng), ChineseKey := ParseList(boxes.chn)]
  }

  /**
   * LoadExistingConfig: each box present in the configuration shows its list
   * joined with ", "; a box whose key is absent, or every box when the file
   * cannot be read (None), keeps its text.
   */
  function LoadExistingConfig(config: Option<ModeManager.Config>, boxes: Boxes): (shown: Boxes)
    ensures config.None? ==> shown == boxes
    ensures config.Some? && EngKey in config.value ==> shown.eng == FormatList(config.value[EngKey])
    ensures config.Some? && EngKey !in config.value ==> shown.eng == boxes.eng
    ensures config.Some? && ChineseKey in config.value ==> shown.chn == FormatList(config.value[ChineseKey])
    ensures config.Some? && ChineseKey !in config.value ==> shown.chn == boxes.chn
  {
    match config
    case None => boxes
    case Some(json) =>
      Boxes(if EngKey in json then FormatList(json[EngKey]) else boxes.eng,
            if ChineseKey in json then FormatList(json[ChineseKey]) else boxes.chn)
  }

  /**
   * Opening the dialog on a saved configuration and saving it unchanged
   * writes the same two lists back.
   */
  lemma {:induction false} ReopenAndSave(json: ModeManager.Config, boxes: Boxes)
    requires EngKey in json && ChineseKey in json
    requires AllEntries(json[EngKey]) && AllEntries(json[ChineseKey])
    ensures OnSave(LoadExistingConfig(Some(json), boxes)) == map[EngKey := json[EngKey], ChineseKey := json[ChineseKey]]
  {
    ParseFormatRoundTrip(json[EngKey]);
    ParseFormatRoundTrip(json[ChineseKey]);
  }

  /**
   * The keys written are the keys the mode manager reads: a saved dialog
   * loads as the sets of the entries parsed from each box.
   */
  method SaveThenLoad(boxes: Boxes) returns (engApps: set<string>, chnApps: set<string>)
    ensures forall x :: x in engApps <==> x in ParseList(boxes.eng)
    ensures forall x :: x in chnApps <==> x in ParseList(boxes.chn)
  {
    var manager := new ModeManager.InputModeManager(Some(OnSave(boxes)));
    engApps, chnApps := manager.engApps, manager.chnApps;
  }

  /** A running process; mainWindowHandle is Zero for one without a main window. */
  datatype ProcessInfo = ProcessInfo(processName: string, mainWindowHandle: Hwnd)

  /** The executable names of the processes that have a main window, in order. */
  function WindowedExeNames(processes: seq<ProcessInfo>): (names: seq<string>)
    ensures forall n :: n in names ==> HasExeSuffix(n)
    ensures forall p :: p in processes && p.mainWindowHandle != Zero ==> ExeName(p.processName) in names
    ensures forall n :: n in names ==> exists p :: p in processes && p.mainWindowHandle != Zero && n == ExeName(p.processName)
  {
    if processes == [] then []
    else
      var p := processes[0];
      var rest := WindowedExeNames(processes[1..]);
      assert forall q :: q in processes[1..] ==> q in processes;
      (if p.mainWindowHandle != Zero then [ExeName(p.processName)] else []) + rest
  }

  /** Distinct: the first occurrence of every element, in order. */
  function Distinct(xs: seq<string>): (ys: seq<string>)
    ensures forall x :: x in ys <==> x in xs
    ensures forall x :: multiset(ys)[x] <= 1
  {
    if xs == [] then []
    else
      var init := Distinct(xs[..|xs| - 1]);
      var last := xs[|xs| - 1];
      assert xs == xs[..|xs| - 1] + [last];
      if last in init then init else init + [last]
  }

  /** A total order on strings; the culture's order is not fixed here. */
  ghost predicate TotalOrder(leq: (string, string) -> bool) {
    && (forall a, b :: leq(a, b) || leq(b, a))
    && (forall a, b :: leq(a, b) && leq(b, a) ==> a == b)
    && (forall a, b, c :: leq(a, b) && leq(b, c) ==> leq(a, c))
  }

  ghost predicate Sorted(xs: seq<string>, leq: (string, string) -> bool) {
    forall i, j :: 0 <= i < j < |xs| ==> leq(xs[i], xs[j])
  }

  function Insert(x: string, xs: seq<string>, leq: (string, string) -> bool): (ys: seq<string>)
    requires TotalOrder(leq)
    requires Sorted(xs, leq)
    ensures Sorted(ys, leq)
    ensures forall y :: y in ys <==> y == x || y in xs
    ensures multiset(ys) == multiset(xs) + multiset{x}
  {
    if xs == [] then [x]
    else if leq(x, xs[0]) then [x] + xs
    else
      var rest := Insert(x, xs[1..], leq);
      assert xs == [xs[0]] + xs[1..];
      InsertStep(x, xs, rest, leq);
      [xs[0]] + rest
  }

  lemma InsertStep(x: string, xs: seq<string>, rest: seq<string>, leq: (string, string) -> bool)
    requires TotalOrder(leq) && Sorted(xs, leq) && xs != [] && !leq(x, xs[0])
    requires Sorted(rest, leq)
    requires forall y :: y in rest <==> y == x || y in xs[1..]
    ensures Sorted([xs[0]] + rest, leq)
  {
    forall j | 0 <= j < |rest|
      ensures leq(xs[0], rest[j])
    {
      assert rest[j] in rest;
      if rest[j] != x {
        var k :| 0 <= k < |xs[1..]| && xs[1..][k] == rest[j];
        assert xs[k + 1] == rest[j];
      }
    }
    var ys := [xs[0]] + rest;
    forall i, j | 0 <= i < j < |ys|
      ensures leq(ys[i], ys[j])
    {
      if i > 0 {
        assert ys[i] == rest[i - 1] && ys[j] == rest[j - 1];
      } else {
        assert ys[j] == rest[j - 1];
      }
    }
  }

  /** OrderBy with the given order. */
  function SortBy(xs: seq<string>, leq: (string, string) -> bool): (ys: seq<string>)
    requires TotalOrder(leq)
    ensures Sorted(ys, leq)
    ensures multiset(ys) == multiset(xs)
  {
    if xs == [] then []
    else
      assert xs == [xs[0]] + xs[1..];
      Insert(xs[0], SortBy(xs[1..], leq), leq)
  }

  /**
   * LoadAppList: the executable names of the processes with a main window,
   * without duplicates, in the given order.
   */
  function AppList(processes: seq<ProcessInfo>, leq: (string, string) -> bool): (apps: seq<string>)
    requires TotalOrder(leq)
    ensures Sorted(apps, leq)
    ensures forall a :: multiset(apps)[a] <= 1
    ensures forall a :: a in apps ==> HasExeSuffix(a)
    ensures forall a :: a in apps <==> exists p :: p in processes && p.mainWindowHandle != Zero && a == ExeName(p.processName)
  {
    var names := WindowedExeNames(processes);
    var apps := SortBy(Distinct(names), leq);
    assert forall a :: a in apps <==> a in multiset(apps);
    assert forall a :: a in Distinct(names) <==> a in multiset(Distinct(names));
    apps
  }
}
