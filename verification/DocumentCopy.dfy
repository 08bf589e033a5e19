/** Importing a picked document tree: a breadth-first copy into a fresh local directory, under cleaned
    and, where needed, numbered names. */
module DocumentCopy {
  import opened Basics
  import opened Paths
  import opened RemoteFs
  import opened LocalTree

  /** A document the provider offers. Copying a file may fail, before anything is written or after a part,
      and the listing of a directory may be refused, which the copy takes for an empty one. */
  datatype Doc = DocFile(content: seq<byte>) | Unreadable(partial: Option<seq<byte>>) | DocDir(entries: seq<DocEntry>) | RefusedDir

  datatype DocEntry = DocEntry(name: string, doc: Doc)

  // ---- Cleaning a name ----

  const MAX_NAME: nat := 255

  predicate Forbidden(c: char) {
    c == '\\' || c == '/' || c == '\0'
  }

  predicate Blank(c: char) {
    var u := c as int;
    0x09 <= u <= 0x0D || 0x1C <= u <= 0x20 || u == 0xA0 || u == 0x1680 || 0x2000 <= u <= 0x200A ||
    u == 0x2028 || u == 0x2029 || u == 0x202F || u == 0x205F || u == 0x3000
  }

  function Replaced(s: string): (r: string)
    ensures |r| == |s|
  {
    seq(|s|, i requires 0 <= i < |s| => if Forbidden(s[i]) then '_' else s[i])
  }

  predicate Clean(s: string) {
    forall i :: 0 <= i < |s| ==> !Forbidden(s[i])
  }

  function TrimStart(s: string): (r: string)
    ensures r != [] ==> !Blank(r[0])
    ensures |r| <= |s| && r == s[|s| - |r|..]
  {
    if s == [] || !Blank(s[0]) then s else TrimStart(s[1..])
  }

  function TrimEnd(s: string): (r: string)
    ensures r != [] ==> !Blank(r[|r| - 1])
    ensures r <= s
  {
    if s == [] || !Blank(s[|s| - 1]) then s else TrimEnd(s[..|s| - 1])
  }

  function Trimmed(value: string): string {
    TrimEnd(TrimStart(Replaced(value)))
  }

  function Cut(s: string): string {
    if |s| <= MAX_NAME then s else s[..MAX_NAME]
  }

  function OrItem(s: string): string {
    if s == "" || s == "." || s == ".." then "item" else s
  }

  function Sanitize(value: string): string {
    OrItem(Cut(Trimmed(value)))
  }

  predicate SafeName(name: string) {
    name != "" && name != "." && name != ".." && |name| <= MAX_NAME && Clean(name)
  }

  lemma ReplacedIsClean(s: string)
    ensures Clean(Replaced(s))
  {
  }

  lemma PartIsClean(s: string, from: nat, end: nat)
    requires Clean(s) && from <= end <= |s|
    ensures Clean(s[from..end])
  {
    hide Forbidden;
  }

  lemma TrimmedIsClean(value: string)
    ensures Clean(Trimmed(value))
  {
    var s := Replaced(value);
    ReplacedIsClean(value);
    var t := TrimStart(s);
    var clean := TrimEnd(t);
    assert t == s[|s| - |t|..|s|] && clean == t[0..|clean|];
    hide Replaced, TrimStart, TrimEnd, Clean;
    PartIsClean(s, |s| - |t|, |s|);
    PartIsClean(t, 0, |clean|);
  }

  lemma OrItemIsSafe(s: string)
    requires Clean(s) && |s| <= MAX_NAME
    ensures SafeName(OrItem(s))
  {
    var item := "item";
    assert item[0] == 'i' && item[1] == 't' && item[2] == 'e' && item[3] == 'm';
  }

  /** A cleaned name is a legal name of one path component and does not lead out of its directory. */
  lemma SanitizeIsSafe(value: string)
    ensures SafeName(Sanitize(value))
  {
    var s := Trimmed(value);
    TrimmedIsClean(value);
    assert Clean(Cut(s)) && |Cut(s)| <= MAX_NAME by {
      hide Trimmed, Forbidden;
    }
    hide Trimmed, Cut, Clean, SafeName;
    OrItemIsSafe(Cut(s));
  }

  /** Cleaning cuts blanks off both ends and puts an underscore for every character that is not allowed, and leaves
      everything between as it is; only what is too long is cut, and only what is then empty or a dot name
      replaced. */
  lemma SanitizeMeans(value: string)
    ensures var middle := Trimmed(value); var from := |TrimStart(Replaced(value))|;
      && from <= |value| && |middle| <= from
      && (forall i :: 0 <= i < |value| - from ==> Blank(value[i]))
      && (forall i :: |value| - from + |middle| <= i < |value| ==> Blank(value[i]))
      && (middle != [] ==> !Blank(middle[0]) && !Blank(middle[|middle| - 1]))
      && (forall i :: 0 <= i < |middle| ==>
          middle[i] == var c := value[|value| - from + i]; if c == '\\' || c == '/' || c == '\0' then '_' else c)
      && (0 < |middle| <= 255 && middle != "." && middle != ".." ==> Sanitize(value) == middle)
      && (|middle| > 255 ==> Sanitize(value) == middle[..255])
      && (middle == "" || middle == "." || middle == ".." ==> Sanitize(value) == "item")
  {
    var s := Replaced(value);
    ReplacedBlanks(value);
    var t := TrimStart(s);
    TrimStartCuts(s);
    TrimEndCuts(t);
    hide Replaced, TrimStart, TrimEnd, Blank;
  }

  lemma ReplacedBlanks(value: string)
    ensures forall i :: 0 <= i < |value| ==> (Blank(Replaced(value)[i]) <==> Blank(value[i]))
    ensures forall i :: 0 <= i < |value| ==>
      Replaced(value)[i] == if value[i] == '\\' || value[i] == '/' || value[i] == '\0' then '_' else value[i]
  {
  }

  lemma {:induction false} TrimStartCuts(s: string)
    ensures forall i :: 0 <= i < |s| - |TrimStart(s)| ==> Blank(s[i])
  {
    if s != [] && Blank(s[0]) {
      TrimStartCuts(s[1..]);
    }
    hide Blank;
  }

  lemma {:induction false} TrimEndCuts(s: string)
    ensures forall i :: |TrimEnd(s)| <= i < |s| ==> Blank(s[i])
  {
    if s != [] && Blank(s[|s| - 1]) {
      TrimEndCuts(s[..|s| - 1]);
    }
    hide Blank;
  }

  lemma SafeIsPlain(name: string)
    requires SafeName(name)
    ensures PlainName(name)
  {
    assert forall i :: 0 <= i < |name| ==> name[i] != '/';
  }

  /** Names that are safe already, without blanks at either end, are kept. */
  lemma SanitizeKeeps(name: string)
    requires SafeName(name) && !Blank(name[0]) && !Blank(name[|name| - 1])
    ensures Sanitize(name) == name
  {
    assert Replaced(name) == name by {
      hide Forbidden;
    }
    hide Replaced, Forbidden, Blank, Clean;
    assert TrimStart(name) == name && TrimEnd(name) == name;
  }

  // ---- Choosing a free name ----

  /** "name", "name (2)", "name (3)", and so on. */
  function Candidate(requested: string, k: nat): string {
    if k == 0 then requested else requested + " (" + Decimal(k + 1) + ")"
  }

  lemma CandidatesAreDistinct(requested: string, j: nat, k: nat)
    requires Candidate(requested, j) == Candidate(requested, k)
    ensures j == k
  {
    var n := |requested|;
    if j > 0 && k > 0 {
      var a, b := Candidate(requested, j), Candidate(requested, k);
      assert a[n + 2..|a| - 1] == Decimal(j + 1) && b[n + 2..|b| - 1] == Decimal(k + 1);
      DecimalIsInjective(j + 1, k + 1);
    }
  }

  lemma CandidateIsPlain(requested: string, k: nat)
    requires PlainName(requested)
    ensures PlainName(Candidate(requested, k))
  {
  }

  function FirstCandidates(requested: string, n: nat): set<string> {
    if n == 0 then {} else FirstCandidates(requested, n - 1) + {Candidate(requested, n - 1)}
  }

  lemma {:induction false} CandidateMembers(requested: string, n: nat, k: nat)
    ensures Candidate(requested, k) in FirstCandidates(requested, n) <==> k < n
  {
    if n > 0 {
      CandidateMembers(requested, n - 1, k);
      if Candidate(requested, k) == Candidate(requested, n - 1) {
        CandidatesAreDistinct(requested, k, n - 1);
      }
    }
  }

  /** The pigeonhole: as many candidates taken, as many names in use. */
  lemma {:induction false} Pigeonhole(requested: string, n: nat, used: set<string>)
    requires FirstCandidates(requested, n) <= used
    ensures n <= |used|
  {
    if n > 0 {
      var last := Candidate(requested, n - 1);
      CandidateMembers(requested, n - 1, n - 1);
      Pigeonhole(requested, n - 1, used - {last});
    }
  }

  /** The first free candidate from number `k` on. */
  function FreeFrom(requested: string, used: set<string>, k: nat): (i: nat)
    requires FirstCandidates(requested, k) <= used
    ensures Candidate(requested, i) !in used && FirstCandidates(requested, i) <= used
    decreases |used| - k
  {
    Pigeonhole(requested, k, used);
    if Candidate(requested, k) !in used then k else
      Pigeonhole(requested, k + 1, used);
      FreeFrom(requested, used, k + 1)
  }

  function FreeName(requested: string, used: set<string>): string {
    Candidate(requested, FreeFrom(requested, used, 0))
  }

  lemma FirstFreeIsUnique(requested: string, used: set<string>, i: nat, j: nat)
    requires Candidate(requested, i) !in used && FirstCandidates(requested, i) <= used
    requires Candidate(requested, j) !in used && FirstCandidates(requested, j) <= used
    ensures i == j
  {
    CandidateMembers(requested, i, j);
    CandidateMembers(requested, j, i);
  }

  /** More names in use do not matter while the chosen one is not among them. */
  lemma FreeNameStays(requested: string, used: set<string>, more: set<string>)
    requires used <= more && FreeName(requested, used) !in more
    ensures FreeName(requested, more) == FreeName(requested, used)
  {
    hide Candidate;
    FirstFreeIsUnique(requested, more, FreeFrom(requested, used, 0), FreeFrom(requested, more, 0));
  }

  // ---- The tree a copy should leave ----

  function NamesOf(entries: seq<Entry>): set<string> {
    set e | e in entries :: e.name
  }

  /** The document tree with every name cleaned and made unique among its earlier siblings. */
  function Relabelled(d: Doc): LocalNode
    decreases d, 1
  {
    match d
    case DocFile(content) => File(content)
    case Unreadable(_) => File([])
    case DocDir(entries) => Dir(RelabelledEntries(entries))
    case RefusedDir => Dir([])
  }

  function RelabelledEntries(entries: seq<DocEntry>): (r: seq<Entry>)
    ensures |r| == |entries|
    decreases entries, 0
  {
    if entries == [] then [] else
      var before, last := RelabelledEntries(entries[..|entries| - 1]), entries[|entries| - 1];
      before + [Entry(FreeName(Sanitize(last.name), NamesOf(before)), Relabelled(last.doc))]
  }

  /** The same tree but for names, and each name the cleaned one, numbered or not. */
  ghost predicate SameShape(d: Doc, n: LocalNode)
    decreases d
  {
    match d
    case DocFile(content) => n == File(content)
    case Unreadable(_) => n.File?
    case RefusedDir => n == Dir([])
    case DocDir(entries) =>
      n.Dir? && |n.entries| == |entries| &&
      (forall i :: 0 <= i < |entries| ==> SameShape(entries[i].doc, n.entries[i].node)) &&
      (forall i :: 0 <= i < |entries| ==> IsNumbering(n.entries[i].name, entries[i].name))
  }

  ghost predicate IsNumbering(name: string, original: string) {
    exists k :: name == Candidate(Sanitize(original), k)
  }

  lemma {:induction false} EntryAt(entries: seq<DocEntry>, i: nat)
    requires i < |entries|
    ensures RelabelledEntries(entries)[..i] == RelabelledEntries(entries[..i])
    ensures RelabelledEntries(entries)[i] ==
      Entry(FreeName(Sanitize(entries[i].name), NamesOf(RelabelledEntries(entries[..i]))), Relabelled(entries[i].doc))
    decreases |entries|
  {
    hide FreeName, Sanitize, NamesOf, Relabelled;
    var front := entries[..|entries| - 1];
    if i < |front| {
      EntryAt(front, i);
      assert front[..i] == entries[..i];
    }
  }

  lemma EntryName(entries: seq<DocEntry>, i: nat)
    requires i < |entries|
    ensures IsNumbering(RelabelledEntries(entries)[i].name, entries[i].name) && PlainName(RelabelledEntries(entries)[i].name)
  {
    EntryAt(entries, i);
    var clean, used := Sanitize(entries[i].name), NamesOf(RelabelledEntries(entries[..i]));
    hide RelabelledEntries, Sanitize, NamesOf, PlainName, Candidate;
    SanitizeIsSafe(entries[i].name);
    SafeIsPlain(clean);
    CandidateIsPlain(clean, FreeFrom(clean, used, 0));
  }

  lemma EarlierNamesDiffer(entries: seq<DocEntry>, i: nat, j: nat)
    requires i < j < |entries|
    ensures RelabelledEntries(entries)[i].name != RelabelledEntries(entries)[j].name
  {
    EntryAt(entries, j);
    var r := RelabelledEntries(entries);
    hide RelabelledEntries, Sanitize, Candidate;
    assert r[..j][i] == r[i] && r[i] in r[..j];
    assert r[i].name in NamesOf(r[..j]);
  }

  lemma {:induction false} RelabelledHasSameShape(d: Doc)
    ensures SameShape(d, Relabelled(d))
    decreases d
  {
    if d.DocDir? {
      hide RelabelledEntries, IsNumbering, Sanitize;
      forall i | 0 <= i < |d.entries|
        ensures SameShape(d.entries[i].doc, RelabelledEntries(d.entries)[i].node)
        ensures IsNumbering(RelabelledEntries(d.entries)[i].name, d.entries[i].name)
      {
        EntryAt(d.entries, i);
        EntryName(d.entries, i);
        RelabelledHasSameShape(d.entries[i].doc);
      }
    }
  }

  lemma {:induction false} RelabelledIsWellFormed(d: Doc)
    ensures WellFormed(Relabelled(d))
    decreases d
  {
    if d.DocDir? {
      hide RelabelledEntries, Sanitize, PlainName, IsNumbering;
      var r := RelabelledEntries(d.entries);
      forall i | 0 <= i < |r| ensures PlainName(r[i].name) && WellFormed(r[i].node) {
        EntryAt(d.entries, i);
        EntryName(d.entries, i);
        RelabelledIsWellFormed(d.entries[i].doc);
      }
      forall i, j | 0 <= i < j < |r| ensures r[i].name != r[j].name {
        EarlierNamesDiffer(d.entries, i, j);
      }
    }
  }

  // ---- One place per document ----

  function DocCount(d: Doc): nat
    decreases d, 1
  {
    match d
    case DocDir(entries) => 1 + EntryCount(entries)
    case _ => 1
  }

  function EntryCount(entries: seq<DocEntry>): nat
    decreases entries, 0
  {
    if entries == [] then 0 else DocCount(entries[0].doc) + EntryCount(entries[1..])
  }

  function NodeCount(n: LocalNode): nat
    decreases n, 1
  {
    match n
    case Dir(entries) => 1 + NodeCounts(entries)
    case _ => 1
  }

  function NodeCounts(entries: seq<Entry>): nat
    decreases entries, 0
  {
    if entries == [] then 0 else NodeCount(entries[0].node) + NodeCounts(entries[1..])
  }

  lemma {:induction false} CountsAppend(entries: seq<Entry>, e: Entry)
    ensures NodeCounts(entries + [e]) == NodeCounts(entries) + NodeCount(e.node)
    decreases |entries|
  {
    hide NodeCount;
    if entries == [] {
      assert [e][1..] == [];
    } else {
      CountsAppend(entries[1..], e);
      assert (entries + [e])[1..] == entries[1..] + [e];
    }
  }

  lemma {:induction false} EntriesAppend(entries: seq<DocEntry>, e: DocEntry)
    ensures EntryCount(entries + [e]) == EntryCount(entries) + DocCount(e.doc)
    decreases |entries|
  {
    hide DocCount;
    if entries == [] {
      assert [e][1..] == [];
    } else {
      EntriesAppend(entries[1..], e);
      assert (entries + [e])[1..] == entries[1..] + [e];
    }
  }

  lemma {:induction false} RelabelledCount(d: Doc)
    ensures NodeCount(Relabelled(d)) == DocCount(d)
    decreases d, 1
  {
    if d.DocDir? {
      RelabelledCounts(d.entries);
    }
  }

  lemma {:induction false} RelabelledCounts(entries: seq<DocEntry>)
    ensures NodeCounts(RelabelledEntries(entries)) == EntryCount(entries)
    decreases entries, 0
  {
    if entries != [] {
      RelabelledCounts(entries[..|entries| - 1]);
      RelabelledCount(entries[|entries| - 1].doc);
      hide *;
      LastCounts(entries);
    }
  }

  lemma LastCounts(entries: seq<DocEntry>)
    requires entries != []
    ensures var front, last := entries[..|entries| - 1], entries[|entries| - 1];
      && NodeCounts(RelabelledEntries(entries)) == NodeCounts(RelabelledEntries(front)) + NodeCount(Relabelled(last.doc))
      && EntryCount(entries) == EntryCount(front) + DocCount(last.doc)
  {
    hide *;
    var front, last := entries[..|entries| - 1], entries[|entries| - 1];
    EntryAt(entries, |front|);
    var r := RelabelledEntries(entries);
    assert entries == front + [last] && r == r[..|front|] + [r[|front|]];
    EntriesAppend(front, last);
    CountsAppend(RelabelledEntries(front), r[|front|]);
  }

  ghost predicate OnlyFilesAndDirs(n: LocalNode) {
    !n.Symlink? && !n.Other? &&
    (n.Dir? ==> forall i :: 0 <= i < |n.entries| ==> OnlyFilesAndDirs(n.entries[i].node))
  }

  lemma {:induction false} RelabelledIsPlain(d: Doc)
    ensures OnlyFilesAndDirs(Relabelled(d))
    decreases d
  {
    if d.DocDir? {
      hide RelabelledEntries, Sanitize;
      forall i | 0 <= i < |d.entries| ensures OnlyFilesAndDirs(RelabelledEntries(d.entries)[i].node) {
        EntryAt(d.entries, i);
        RelabelledIsPlain(d.entries[i].doc);
      }
    }
  }

  lemma {:induction false} ImageCount(path: Path, n: LocalNode)
    requires WellFormed(n) && OnlyFilesAndDirs(n)
    ensures |Image(path, n)| == NodeCount(n)
    decreases n, 1
  {
    if n.Dir? {
      ImageCounts(path, n.entries);
      EntriesAreBelow(path, n.entries);
      var head, tail := map[path := DirNode], ImageOfEntries(path, n.entries);
      assert path !in tail;
      assert (head + tail).Keys == head.Keys + tail.Keys;
    }
  }

  lemma {:induction false} ImageCounts(dir: Path, entries: seq<Entry>)
    requires WellFormed(Dir(entries)) && OnlyFilesAndDirs(Dir(entries))
    ensures |ImageOfEntries(dir, entries)| == NodeCounts(entries)
    decreases entries, 0
  {
    if entries != [] {
      var first := Image(Child(dir, entries[0].name), entries[0].node);
      var rest := ImageOfEntries(dir, entries[1..]);
      ImageCount(Child(dir, entries[0].name), entries[0].node);
      ImageCounts(dir, entries[1..]);
      forall k | k in first ensures k !in rest {
        FirstEntryIsApart(dir, entries, k);
      }
      assert (first + rest).Keys == first.Keys + rest.Keys;
    }
  }

  /** Every document gets a place of its own. */
  lemma OnePlaceEach(path: Path, d: Doc)
    ensures |Image(path, Relabelled(d))| == DocCount(d)
  {
    RelabelledIsWellFormed(d);
    RelabelledIsPlain(d);
    ImageCount(path, Relabelled(d));
    RelabelledCount(d);
  }
}
