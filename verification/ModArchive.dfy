/**
 Finding the mods in an uploaded archive and where its entries are extracted to.

 Paths are slash-separated strings.  A mod root is the directory of a ModInfo.xml file, or "." for one at
 the top of the archive.
 */
module ModArchive {
  import opened Text
  import opened Wrappers

  // ---------- Clean paths ----------

  /** A position where a component of a path may start, and one where it may end. */
  predicate StartsComponent(s: string, a: nat) {
    a <= |s| && (a == 0 || s[a - 1] == '/')
  }

  predicate EndsComponent(s: string, b: nat) {
    b <= |s| && (b == |s| || s[b] == '/')
  }

  predicate IsComponent(c: string) {
    c != "" && c != "." && c != ".." && '/' !in c
  }

  /** The paths that cleaning leaves alone, without "." and paths that climb: every component is a proper name. */
  ghost predicate IsClean(s: string) {
    forall a: nat, b: nat :: a <= b && StartsComponent(s, a) && EndsComponent(s, b) && '/' !in s[a..b] ==>
        IsComponent(s[a..b])
  }

  /** The last slash, or the length when there is none. */
  function LastSlash(s: string): (k: nat)
    ensures k <= |s| && (k < |s| ==> s[k] == '/' && '/' !in s[k + 1..])
    ensures k == |s| <==> '/' !in s
  {
    if s == [] then 0
    else
      var k := LastSlash(s[1..]);
      if k < |s| - 1 then
        assert s[1..][k + 1..] == s[k + 2..];
        k + 1
      else if s[0] == '/' then 0 else |s|
  }

  function Dir(s: string): string {
    if LastSlash(s) == |s| then "." else s[..LastSlash(s)]
  }

  function Base(s: string): string {
    if LastSlash(s) == |s| then s else s[LastSlash(s) + 1..]
  }

  // ---------- Roots ----------

  /** An archive entry by its validated name, without the trailing slash of directories. */
  datatype Entry = Entry(name: string, isDir: bool)

  predicate IsModInfo(name: string) {
    Lower(Base(name)) == "modinfo.xml"
  }

  predicate MarksRoot(e: Entry, root: string) {
    !e.isDir && IsModInfo(e.name) && Dir(e.name) == root
  }

  /** The directory of some ModInfo.xml file. */
  predicate IsRoot(entries: seq<Entry>, root: string) {
    exists e :: e in entries && MarksRoot(e, root)
  }

  /** The order of byte strings. */
  predicate Less(a: string, b: string) {
    b != [] && (a == [] || a[0] < b[0] || (a[0] == b[0] && Less(a[1..], b[1..])))
  }

  predicate Sorted(roots: seq<string>) {
    forall i, j :: 0 <= i < j < |roots| ==> Less(roots[i], roots[j])
  }

  predicate Ancestor(root: string, other: string) {
    root + "/" <= other
  }

  lemma {:induction false} PrefixIsLess(p: string, s: string)
    requires p < s
    ensures Less(p, s)
  {
    if p != [] {
      assert s[0] == p[0] && p[1..] < s[1..];
      PrefixIsLess(p[1..], s[1..]);
    }
  }

  lemma {:induction false} LessIsStrict(a: string, b: string)
    requires Less(a, b)
    ensures !Less(b, a)
  {
    if a != [] && a[0] == b[0] {
      LessIsStrict(a[1..], b[1..]);
    }
  }

  lemma {:induction false} LessIsTransitive(a: string, b: string, c: string)
    requires Less(a, b) && Less(b, c)
    ensures Less(a, c)
  {
    if a != [] && a[0] == b[0] == c[0] {
      LessIsTransitive(a[1..], b[1..], c[1..]);
    }
  }

  lemma {:induction false} LessIsTotal(a: string, b: string)
    ensures Less(a, b) || Less(b, a) || a == b
  {
    if a != [] && b != [] && a[0] == b[0] {
      LessIsTotal(a[1..], b[1..]);
      assert a == [a[0]] + a[1..] && b == [b[0]] + b[1..];
    }
  }

  // ---------- The nesting scan ----------

  predicate Apart(root: string, later: string) {
    root != "." && !Ancestor(root, later)
  }

  /** The scan compares every root with those behind it only. */
  predicate ScanPasses(roots: seq<string>) {
    forall i, j :: 0 <= i < j < |roots| ==> Apart(roots[i], roots[j])
  }

  method ScanForNesting(roots: seq<string>) returns (ok: bool)
    ensures ok <==> ScanPasses(roots)
  {
    for i := 0 to |roots|
      invariant forall k, j :: 0 <= k < i && k < j < |roots| ==> Apart(roots[k], roots[j])
    {
      for j := i + 1 to |roots|
        invariant forall m :: i < m < j ==> Apart(roots[i], roots[m])
      {
        if roots[i] == "." || Ancestor(roots[i], roots[j]) { return false; }
      }
    }
    return true;
  }

  lemma AncestorComesFirst(roots: seq<string>, i: nat, j: nat)
    requires Sorted(roots) && i < |roots| && j < |roots| && Ancestor(roots[i], roots[j])
    ensures i < j
  {
    var p, s := roots[i], roots[j];
    assert p < s by { assert (p + "/")[..|p|] == p; assert s[..|p|] == p; }
    PrefixIsLess(p, s);
    LessIsStrict(p, s);
  }

  /**
   In sorted order the forward scan is exact for named roots: it passes if and only if none contains another
   and the top of the archive, which contains every root, is not a root or sorts behind all of them.
   */
  lemma ScanPassesIff(roots: seq<string>)
    requires Sorted(roots)
    ensures ScanPasses(roots) <==>
            (forall i, j :: 0 <= i < |roots| && 0 <= j < |roots| && roots[i] != "." ==> !Ancestor(roots[i], roots[j]))
            && (forall i :: 0 <= i < |roots| && roots[i] == "." ==> i == |roots| - 1)
  {
    if ScanPasses(roots) {
      forall i, j | 0 <= i < |roots| && 0 <= j < |roots| && roots[i] != "." ensures !Ancestor(roots[i], roots[j]) {
        if Ancestor(roots[i], roots[j]) { AncestorComesFirst(roots, i, j); }
      }
      forall i | 0 <= i < |roots| - 1 ensures roots[i] != "." {
        assert Apart(roots[i], roots[i + 1]);
      }
    }
  }

  /** A mod inside a mod at the top of the archive goes unnoticed when its path sorts before ".". */
  lemma NestedTopGoesUnnoticed()
    ensures Sorted(["-mod", "."]) && ScanPasses(["-mod", "."])
  {
    assert Less("-mod", ".");
  }

  // ---------- Which root an entry belongs to ----------

  predicate Belongs(root: string, clean: string) {
    root == "." || Ancestor(root, clean) || clean == root
  }

  /** Two roots of one entry lie in each other. */
  lemma SharedEntryMeansNested(a: string, b: string, clean: string)
    requires a != "." && b != "." && Belongs(a, clean) && Belongs(b, clean) && |a| <= |b|
    ensures a == b || Ancestor(a, b)
  {
    assert clean[..|a|] == a && clean[..|b|] == b;
    if |a| < |b| {
      assert clean[|a|] == (a + "/")[|a|] == '/';
      assert b[..|a| + 1] == clean[..|a| + 1] == a + "/";
    }
  }

  /** When the scan passed, every entry belongs to at most one named root. */
  lemma AtMostOneNamedRoot(roots: seq<string>, clean: string, i: nat, j: nat)
    requires Sorted(roots) && ScanPasses(roots) && i < |roots| && j < |roots|
    requires roots[i] != "." && roots[j] != "." && Belongs(roots[i], clean) && Belongs(roots[j], clean)
    ensures i == j
  {
    ScanPassesIff(roots);
    var a, b := roots[i], roots[j];
    if |a| <= |b| { SharedEntryMeansNested(a, b, clean); } else { SharedEntryMeansNested(b, a, clean); }
    if i < j { LessIsStrict(a, b); }
    if j < i { LessIsStrict(b, a); }
  }

  /** The first root an entry belongs to, or the number of roots. */
  function RootFor(roots: seq<string>, clean: string, k: nat): (r: nat)
    requires k <= |roots|
    ensures k <= r <= |roots|
    ensures r < |roots| ==> Belongs(roots[r], clean)
    ensures forall i :: k <= i < r ==> !Belongs(roots[i], clean)
    decreases |roots| - k
  {
    if k == |roots| || Belongs(roots[k], clean) then k else RootFor(roots, clean, k + 1)
  }

  // ---------- Where an entry goes ----------

  function Relative(clean: string, root: string): string
    requires Belongs(root, clean)
  {
    if root == "." then clean else if clean == root then "" else clean[|root| + 1..]
  }

  /** The letter case of ModInfo.xml is made uniform. */
  function Normalized(relative: string): string {
    if !IsModInfo(relative) then relative
    else if Dir(relative) == "." then "ModInfo.xml" else Dir(relative) + "/ModInfo.xml"
  }

  lemma SuffixIsClean(s: string, k: nat)
    requires IsClean(s) && k < |s| && s[k] == '/'
    ensures IsClean(s[k + 1..])
  {
    var t := s[k + 1..];
    forall a: nat, b: nat | a <= b && StartsComponent(t, a) && EndsComponent(t, b) && '/' !in t[a..b]
        ensures IsComponent(t[a..b]) {
      assert t[a..b] == s[k + 1 + a..k + 1 + b];
      assert StartsComponent(s, k + 1 + a) && EndsComponent(s, k + 1 + b);
    }
  }

  lemma PrefixIsClean(s: string, k: nat)
    requires IsClean(s) && k < |s| && s[k] == '/'
    ensures IsClean(s[..k])
  {
    var t := s[..k];
    forall a: nat, b: nat | a <= b && StartsComponent(t, a) && EndsComponent(t, b) && '/' !in t[a..b]
        ensures IsComponent(t[a..b]) {
      assert t[a..b] == s[a..b];
      assert StartsComponent(s, a) && EndsComponent(s, b);
    }
  }

  lemma NameIsClean(c: string)
    requires IsComponent(c)
    ensures IsClean(c)
  {
    forall a: nat, b: nat | a <= b && StartsComponent(c, a) && EndsComponent(c, b) ensures IsComponent(c[a..b]) {
      assert a == 0 && b == |c|;
      assert c[a..b] == c;
    }
  }

  lemma SlashInside(t: string, a: nat, b: nat, k: nat)
    requires a <= k < b <= |t| && t[k] == '/'
    ensures '/' in t[a..b]
  {
    assert t[a..b][k - a] == '/';
  }

  lemma JoinIsClean(d: string, c: string)
    requires IsClean(d) && IsComponent(c)
    ensures IsClean(d + "/" + c)
  {
    var t := d + "/" + c;
    forall a: nat, b: nat | a <= b && StartsComponent(t, a) && EndsComponent(t, b) && '/' !in t[a..b]
        ensures IsComponent(t[a..b]) {
      if b <= |d| {
        assert t[a..b] == d[a..b];
        assert StartsComponent(d, a) && EndsComponent(d, b);
      } else {
        if a <= |d| { SlashInside(t, a, b, |d|); }
        assert forall i :: |d| < i < |t| ==> t[i] == c[i - |d| - 1];
        assert a == |d| + 1 && b == |t|;
        assert t[a..b] == c;
      }
    }
  }

  /** A clean path stays clean when the case of its file name is changed. */
  lemma NormalizedIsClean(s: string)
    requires IsClean(s)
    ensures IsClean(Normalized(s))
  {
    var k := LastSlash(s);
    NameIsClean("ModInfo.xml");
    if IsModInfo(s) && k < |s| {
      PrefixIsClean(s, k);
      JoinIsClean(s[..k], "ModInfo.xml");
      assert s[..k] + "/" + "ModInfo.xml" == s[..k] + "/ModInfo.xml";
    }
  }

  lemma RelativeIsClean(clean: string, root: string)
    requires IsClean(clean) && Belongs(root, clean) && Relative(clean, root) != ""
    ensures IsClean(Relative(clean, root))
  {
    if root != "." {
      assert clean[|root|] == (root + "/")[|root|] == '/';
      SuffixIsClean(clean, |root|);
    }
  }

  // ---------- Folders ----------

  predicate IsPlain(c: char) {
    'a' <= c <= 'z' || 'A' <= c <= 'Z' || '0' <= c <= '9' || c == '.' || c == '_' || c == '-'
  }

  predicate IsTrimmed(c: char) {
    c == '.' || c == '_' || c == '-'
  }

  /** Every run of other characters becomes one underscore. */
  function Underscored(s: string, inRun: bool): (r: string)
    ensures forall i :: 0 <= i < |r| ==> IsPlain(r[i])
  {
    if s == [] then []
    else if IsPlain(s[0]) then [s[0]] + Underscored(s[1..], false)
    else (if inRun then [] else "_") + Underscored(s[1..], true)
  }

  function TrimStart(s: string): (r: string)
    ensures r == [] || !IsTrimmed(r[0])
    ensures forall i :: 0 <= i < |r| ==> r[i] in s
  {
    if s != [] && IsTrimmed(s[0]) then TrimStart(s[1..]) else s
  }

  function TrimEnd(s: string): (r: string)
    ensures r <= s
  {
    if s != [] && IsTrimmed(s[|s| - 1]) then TrimEnd(s[..|s| - 1]) else s
  }

  function Sanitized(s: string): string {
    var t := TrimEnd(TrimStart(Underscored(s, false)));
    if |t| > 100 then t[..100] else t
  }

  /** Whatever an archive calls its folders: a folder that is not empty is a proper, plain name. */
  lemma SanitizedIsComponent(s: string)
    requires Sanitized(s) != ""
    ensures IsComponent(Sanitized(s)) && |Sanitized(s)| <= 100
    ensures forall i :: 0 <= i < |Sanitized(s)| ==> IsPlain(Sanitized(s)[i])
  {
    var u := Underscored(s, false);
    var t, r := TrimStart(u), Sanitized(s);
    forall i | 0 <= i < |r| ensures IsPlain(r[i]) { assert r[i] == t[i] && t[i] in u; }
    assert r[0] == t[0];
  }

  lemma {:induction false} RestOfRun(b: string, c: string)
    requires (forall i :: 0 <= i < |b| ==> !IsPlain(b[i])) && (c == "" || IsPlain(c[0]))
    ensures Underscored(b + c, true) == Underscored(c, false)
  {
    if b == [] {
      assert b + c == c;
    } else {
      assert (b + c)[1..] == b[1..] + c;
      RestOfRun(b[1..], c);
    }
  }

  /** A run of characters that are not plain, of any length, becomes one underscore, and what is plain stays. */
  lemma {:induction false} RunBecomesUnderscore(a: string, b: string, c: string)
    requires (forall i :: 0 <= i < |a| ==> IsPlain(a[i])) && (forall i :: 0 <= i < |b| ==> !IsPlain(b[i]))
    requires b != "" && (c == "" || IsPlain(c[0]))
    ensures Underscored(a + b + c, false) == a + "_" + Underscored(c, false)
  {
    if a == [] {
      assert a + b + c == b + c && (b + c)[1..] == b[1..] + c;
      RestOfRun(b[1..], c);
    } else {
      assert (a + b + c)[1..] == a[1..] + b + c;
      RunBecomesUnderscore(a[1..], b, c);
    }
  }

  predicate AllTrimmed(s: string) {
    forall i :: 0 <= i < |s| ==> s[i] in "._-"
  }

  /** Nothing left to trim. */
  predicate IsCore(t: string) {
    t == "" || (t[0] !in "._-" && t[|t| - 1] !in "._-")
  }

  lemma {:induction false} TrimsStart(a: string, t: string)
    requires AllTrimmed(a) && (t == "" || !IsTrimmed(t[0]))
    ensures TrimStart(a + t) == t
  {
    if a == [] {
      assert a + t == t;
    } else {
      assert (a + t)[1..] == a[1..] + t;
      TrimsStart(a[1..], t);
    }
  }

  lemma {:induction false} TrimsEnd(t: string, b: string)
    requires AllTrimmed(b) && (t == "" || !IsTrimmed(t[|t| - 1]))
    ensures TrimEnd(t + b) == t
  {
    if b == [] {
      assert t + b == t;
    } else {
      assert (t + b)[..|t + b| - 1] == t + b[..|b| - 1];
      TrimsEnd(t, b[..|b| - 1]);
    }
  }

  /** Then dots, underscores and dashes are dropped at both ends, and the rest is cut to 100 characters. */
  lemma SanitizedIsCore(s: string, a: string, t: string, b: string)
    requires Underscored(s, false) == a + t + b && AllTrimmed(a) && AllTrimmed(b) && IsCore(t)
    ensures Sanitized(s) == if |t| > 100 then t[..100] else t
  {
    if t == "" {
      assert a + t + b == (a + b) + "";
      TrimsStart(a + b, "");
    } else {
      assert a + t + b == a + (t + b);
      TrimsStart(a, t + b);
    }
    TrimsEnd(t, if t == "" then "" else b);
  }

  function FolderOf(root: string, archiveFolder: string): string {
    Sanitized(if root == "." || Lower(Base(root)) == "mods" then archiveFolder else Base(root))
  }

  datatype Error = NoModInfo | Nested | BadFolder | SameFolder | AlreadyThere | DuplicateOutput

  /** Folders differ in more than their letter case. */
  predicate Distinct(folders: seq<string>) {
    forall i, j :: 0 <= i < j < |folders| ==> Lower(folders[i]) != Lower(folders[j])
  }

  predicate Taken(folders: seq<string>, lowered: string) {
    exists k :: 0 <= k < |folders| && Lower(folders[k]) == lowered
  }

  lemma TakenAfter(folders: seq<string>, folder: string, lowered: string)
    ensures Taken(folders + [folder], lowered) <==> Taken(folders, lowered) || Lower(folder) == lowered
  {
    var more := folders + [folder];
    if k :| 0 <= k < |folders| && Lower(folders[k]) == lowered { assert Lower(more[k]) == lowered; }
    if Lower(folder) == lowered { assert Lower(more[|folders|]) == lowered; }
  }

  /** Some root gets no folder. */
  ghost predicate SomeFolderEmpty(roots: seq<string>, archiveFolder: string) {
    exists i :: 0 <= i < |roots| && FolderOf(roots[i], archiveFolder) == ""
  }

  /** Two roots get folders that differ in letter case at most. */
  ghost predicate SomeFoldersCollide(roots: seq<string>, archiveFolder: string) {
    exists i, j :: 0 <= i < j < |roots|
        && Lower(FolderOf(roots[i], archiveFolder)) == Lower(FolderOf(roots[j], archiveFolder))
  }

  /** A mod of that folder is in quarantine already. */
  ghost predicate SomeFolderPresent(roots: seq<string>, archiveFolder: string, present: set<string>) {
    exists i :: 0 <= i < |roots| && FolderOf(roots[i], archiveFolder) in present
  }

  method AssignFolders(roots: seq<string>, archiveFolder: string, present: set<string>)
    returns (r: Result<seq<string>, Error>)
    ensures r.Ok? ==> |r.value| == |roots| && Distinct(r.value)
    ensures r.Ok? ==> forall i :: 0 <= i < |roots| ==> r.value[i] == FolderOf(roots[i], archiveFolder) != ""
    ensures r.Ok? ==> forall i :: 0 <= i < |roots| ==> r.value[i] !in present
    ensures r.Err? ==> r.error == BadFolder || r.error == SameFolder || r.error == AlreadyThere
    ensures r == Err(BadFolder) ==> SomeFolderEmpty(roots, archiveFolder)
    ensures r == Err(SameFolder) ==> SomeFoldersCollide(roots, archiveFolder)
    ensures r == Err(AlreadyThere) ==> SomeFolderPresent(roots, archiveFolder, present)
  {
    var folders: seq<string> := [];
    var used: set<string> := {};
    for i := 0 to |roots|
      invariant |folders| == i && Distinct(folders)
      invariant forall k :: 0 <= k < i ==> folders[k] == FolderOf(roots[k], archiveFolder) != ""
      invariant forall k :: 0 <= k < i ==> folders[k] !in present
      invariant forall f :: f in used <==> Taken(folders, f)
    {
      var folder := FolderOf(roots[i], archiveFolder);
      if folder == "" { return Err(BadFolder); }
      if Lower(folder) in used {
        ghost var k :| 0 <= k < i && Lower(folders[k]) == Lower(folder);
        return Err(SameFolder);
      }
      if folder in present { return Err(AlreadyThere); }
      forall f ensures Taken(folders + [folder], f) <==> f in used + {Lower(folder)} { TakenAfter(folders, folder, f); }
      assert !Taken(folders, Lower(folder));
      used := used + {Lower(folder)};
      folders := folders + [folder];
    }
    return Ok(folders);
  }

  // ---------- Extraction ----------

  /**
   The output of an entry below the staging directory, or nothing for entries outside every root and for a root
   itself.
   */
  function Output(roots: seq<string>, folders: seq<string>, clean: string): Option<string>
    requires |folders| == |roots|
  {
    var k := RootFor(roots, clean, 0);
    if k == |roots| || Relative(clean, roots[k]) == "" then None
    else Some(folders[k] + "/" + Normalized(Relative(clean, roots[k])))
  }

  function Outputs(entries: seq<Entry>, roots: seq<string>, folders: seq<string>): (r: seq<Option<string>>)
    requires |folders| == |roots|
    ensures |r| == |entries| && forall i :: 0 <= i < |r| ==> r[i] == Output(roots, folders, entries[i].name)
  {
    seq(|entries|, i requires 0 <= i < |entries| => Output(roots, folders, entries[i].name))
  }

  predicate Clash(a: Option<string>, b: Option<string>) {
    a.Some? && a == b
  }

  /** Output after output; a clash is the only reason to give up. */
  method WriteAll(outputs: seq<Option<string>>) returns (r: Result<seq<string>, Error>)
    ensures r.Ok? <==> forall i, j :: 0 <= i < j < |outputs| ==> !Clash(outputs[i], outputs[j])
    ensures r.Ok? ==> forall p :: p in r.value <==> Some(p) in outputs
    ensures r.Ok? ==> forall i, j :: 0 <= i < j < |r.value| ==> r.value[i] != r.value[j]
    ensures r.Err? ==> r.error == DuplicateOutput
  {
    var written: seq<string> := [];
    var paths: set<string> := {};
    for n := 0 to |outputs|
      invariant forall p :: p in paths <==> p in written
      invariant forall p :: p in written <==> Some(p) in outputs[..n]
      invariant forall i, j :: 0 <= i < j < |written| ==> written[i] != written[j]
      invariant forall i, j :: 0 <= i < j < n ==> !Clash(outputs[i], outputs[j])
    {
      var target := outputs[n];
      assert outputs[..n + 1] == outputs[..n] + [target];
      if target.Some? {
        if target.value in paths {
          ghost var i :| 0 <= i < n && outputs[..n][i] == target;
          assert Clash(outputs[i], outputs[n]);
          return Err(DuplicateOutput);
        }
        forall i | 0 <= i < n ensures !Clash(outputs[i], target) {
          assert outputs[..n][i] == outputs[i];
        }
        paths := paths + {target.value};
        written := written + [target.value];
      }
    }
    assert outputs[..|outputs|] == outputs;
    return Ok(written);
  }

  /** The entries in whatever order they come; no output is written twice. */
  method Extract(entries: seq<Entry>, roots: seq<string>, folders: seq<string>) returns (r: Result<seq<string>, Error>)
    requires |folders| == |roots|
    ensures var outputs := Outputs(entries, roots, folders);
            && (r.Ok? <==> forall i, j :: 0 <= i < j < |outputs| ==> !Clash(outputs[i], outputs[j]))
            && (r.Ok? ==> forall p :: p in r.value <==> Some(p) in outputs)
    ensures r.Ok? ==> forall i, j :: 0 <= i < j < |r.value| ==> r.value[i] != r.value[j]
    ensures r.Err? ==> r.error == DuplicateOutput
  {
    r := WriteAll(Outputs(entries, roots, folders));
  }

  /** Every output lies below the folder of the mod its entry belongs to. */
  lemma OutputIsInside(roots: seq<string>, folders: seq<string>, clean: string)
    requires |folders| == |roots| && IsClean(clean) && Output(roots, folders, clean).Some?
    ensures var k := RootFor(roots, clean, 0); var output := Output(roots, folders, clean).value;
            && k < |roots| && folders[k] + "/" <= output
            && output[|folders[k]| + 1..] == Normalized(Relative(clean, roots[k]))
            && IsClean(output[|folders[k]| + 1..])
  {
    var k := RootFor(roots, clean, 0);
    RelativeIsClean(clean, roots[k]);
    NormalizedIsClean(Relative(clean, roots[k]));
  }

  // ---------- Every mod keeps its ModInfo.xml ----------

  /** The directory of a clean path is "." only when the path has no directory. */
  lemma TopHasNoSlash(name: string)
    requires IsClean(name) && Dir(name) == "."
    ensures '/' !in name
  {
    var k := LastSlash(name);
    if k < |name| {
      assert name[0..k] == name[..k];
      assert StartsComponent(name, 0) && EndsComponent(name, k);
    }
  }

  lemma ModInfoAfterDot(name: string)
    requires '/' !in name && IsModInfo(name)
    ensures !Less(name, ".")
  {
    assert Lower(name)[0] == 'm';
  }

  lemma BelongsToItsDir(name: string)
    requires Dir(name) != "."
    ensures Ancestor(Dir(name), name)
  {
    assert Dir(name) + "/" == name[..LastSlash(name) + 1];
  }

  lemma AncestorHasSlash(root: string, name: string)
    requires Ancestor(root, name)
    ensures '/' in name
  {
    assert name[|root|] == (root + "/")[|root|];
  }

  /** No root that sorts before "." holds a ModInfo.xml at the top. */
  lemma TopModInfoIsFree(root: string, name: string)
    requires IsClean(name) && IsModInfo(name) && Dir(name) == "." && root != "." && Less(root, ".")
    ensures !Belongs(root, name)
  {
    TopHasNoSlash(name);
    ModInfoAfterDot(name);
    if Ancestor(root, name) { AncestorHasSlash(root, name); }
  }

  /** A ModInfo.xml file belongs to its own directory and to no root before it. */
  lemma ModInfoFindsItsRoot(roots: seq<string>, name: string, k: nat)
    requires Sorted(roots) && ScanPasses(roots) && k < |roots|
    requires IsClean(name) && IsModInfo(name) && Dir(name) == roots[k]
    ensures RootFor(roots, name, 0) == k
  {
    var r := RootFor(roots, name, 0);
    if roots[k] != "." { BelongsToItsDir(name); }
    if r < k {
      assert Apart(roots[r], roots[k]);
      if roots[k] == "." {
        TopModInfoIsFree(roots[r], name);
      } else {
        AtMostOneNamedRoot(roots, name, r, k);
      }
    }
  }

  lemma ModInfoIsNormalized(name: string)
    requires IsClean(name) && IsModInfo(name) && Belongs(Dir(name), name)
    ensures Normalized(Relative(name, Dir(name))) == "ModInfo.xml"
  {
    var k := LastSlash(name);
    if Dir(name) == "." {
      TopHasNoSlash(name);
    } else {
      assert Relative(name, Dir(name)) == name[k + 1..] == Base(name);
      assert '/' !in Base(name);
    }
  }

  lemma ModInfoOutput(name: string, roots: seq<string>, folders: seq<string>, k: nat)
    requires |folders| == |roots| && k < |roots| && Sorted(roots) && ScanPasses(roots)
    requires IsClean(name) && IsModInfo(name) && Dir(name) == roots[k]
    ensures Output(roots, folders, name) == Some(folders[k] + "/" + "ModInfo.xml")
  {
    ModInfoFindsItsRoot(roots, name, k);
    ModInfoIsNormalized(name);
  }

  ghost predicate AllClean(entries: seq<Entry>) {
    forall e :: e in entries ==> IsClean(e.name)
  }

  /** Whatever was recognised as a mod comes out with a ModInfo.xml at the top of its folder. */
  lemma EveryRootGetsModInfo(entries: seq<Entry>, roots: seq<string>, folders: seq<string>, k: nat)
    requires |folders| == |roots| && k < |roots| && Sorted(roots) && ScanPasses(roots)
    requires IsRoot(entries, roots[k]) && AllClean(entries)
    ensures Some(folders[k] + "/" + "ModInfo.xml") in Outputs(entries, roots, folders)
  {
    var e :| e in entries && MarksRoot(e, roots[k]);
    var i :| 0 <= i < |entries| && entries[i] == e;
    ModInfoOutput(e.name, roots, folders, k);
    assert Outputs(entries, roots, folders)[i] == Output(roots, folders, e.name);
  }

  // ---------- The whole upload ----------

  method FindRoots(entries: seq<Entry>) returns (roots: set<string>)
    ensures forall root :: root in roots <==> IsRoot(entries, root)
  {
    roots := {};
    for n := 0 to |entries|
      invariant forall root :: root in roots <==> IsRoot(entries[..n], root)
    {
      var entry := entries[n];
      assert entries[..n + 1] == entries[..n] + [entry];
      ghost var before := roots;
      if !entry.isDir && IsModInfo(entry.name) {
        roots := roots + {Dir(entry.name)};
      }
      forall root ensures root in roots <==> IsRoot(entries[..n + 1], root) {
        OneMoreEntry(entries[..n], entry, root);
      }
    }
    assert entries[..|entries|] == entries;
  }

  lemma OneMoreEntry(entries: seq<Entry>, entry: Entry, root: string)
    ensures IsRoot(entries + [entry], root) <==> IsRoot(entries, root) || MarksRoot(entry, root)
  {
    if MarksRoot(entry, root) { assert entry in entries + [entry]; }
    if e :| e in entries && MarksRoot(e, root) { assert e in entries + [entry]; }
  }

  /** A root put in its place. */
  function Inserted(roots: seq<string>, root: string): (r: seq<string>)
    ensures forall x :: x in r <==> x in roots || x == root
  {
    if roots == [] then [root]
    else if Less(root, roots[0]) then [root] + roots
    else [roots[0]] + Inserted(roots[1..], root)
  }

  lemma {:induction false} InsertedIsSorted(roots: seq<string>, root: string)
    requires Sorted(roots) && root !in roots
    ensures Sorted(Inserted(roots, root))
  {
    if roots != [] {
      var r := Inserted(roots, root);
      if Less(root, roots[0]) {
        forall j | 0 < j < |r| ensures Less(r[0], r[j]) {
          if j > 1 { LessIsTransitive(root, roots[0], roots[j - 1]); }
        }
      } else {
        LessIsTotal(root, roots[0]);
        InsertedIsSorted(roots[1..], root);
        forall j | 0 < j < |r| ensures Less(r[0], r[j]) {
          var x := Inserted(roots[1..], root)[j - 1];
          assert x in roots[1..] || x == root;
        }
      }
    }
  }

  method SortRoots(rootSet: set<string>) returns (roots: seq<string>)
    ensures Sorted(roots) && forall r :: r in roots <==> r in rootSet
  {
    roots := [];
    var left := rootSet;
    while left != {}
      invariant left <= rootSet && Sorted(roots)
      invariant forall r :: r in roots <==> r in rootSet && r !in left
      decreases left
    {
      var root :| root in left;
      InsertedIsSorted(roots, root);
      roots := Inserted(roots, root);
      left := left - {root};
    }
  }

  lemma PrependIsClean(c: string, d: string)
    requires IsComponent(c) && IsClean(d)
    ensures IsClean(c + "/" + d)
  {
    var t := c + "/" + d;
    forall a: nat, b: nat | a <= b && StartsComponent(t, a) && EndsComponent(t, b) && '/' !in t[a..b]
      ensures IsComponent(t[a..b])
    {
      if a > |c| {
        var x, y := a - |c| - 1, b - |c| - 1;
        assert t[a..b] == d[x..y];
        assert StartsComponent(d, x) && EndsComponent(d, y);
      } else {
        if b > |c| { SlashInside(t, a, b, |c|); }
        assert forall i :: 0 <= i < |c| ==> t[i] == c[i];
        assert a == 0 && b == |c|;
        assert t[a..b] == c;
      }
    }
  }

  /** A clean path below the folder of a mod, whose name is proper and plain. */
  ghost predicate IsBelow(root: string, archiveFolder: string, output: string) {
    var folder := FolderOf(root, archiveFolder);
    && IsComponent(folder) && |folder| <= 100 && (forall i :: 0 <= i < |folder| ==> IsPlain(folder[i]))
    && folder + "/" <= output && IsClean(output)
  }

  lemma OutputIsBelow(roots: seq<string>, folders: seq<string>, archiveFolder: string, clean: string)
    requires |folders| == |roots| && IsClean(clean) && Output(roots, folders, clean).Some?
    requires forall i :: 0 <= i < |roots| ==> folders[i] == FolderOf(roots[i], archiveFolder) != ""
    ensures var k := RootFor(roots, clean, 0);
            k < |roots| && IsBelow(roots[k], archiveFolder, Output(roots, folders, clean).value)
  {
    var k, output := RootFor(roots, clean, 0), Output(roots, folders, clean).value;
    OutputIsInside(roots, folders, clean);
    SanitizedIsComponent(if roots[k] == "." || Lower(Base(roots[k])) == "mods" then archiveFolder else Base(roots[k]));
    PrependIsClean(folders[k], Normalized(Relative(clean, roots[k])));
  }

  ghost predicate IsInside(entries: seq<Entry>, archiveFolder: string, output: string) {
    exists root :: IsRoot(entries, root) && IsBelow(root, archiveFolder, output)
  }

  function ModInfoOf(root: string, archiveFolder: string): string {
    FolderOf(root, archiveFolder) + "/" + "ModInfo.xml"
  }

  /**
   What an accepted upload writes: distinct files, each below the folder of a mod, and a ModInfo.xml for every mod.
   */
  ghost predicate Complete(entries: seq<Entry>, archiveFolder: string, outputs: seq<string>) {
    && (forall i, j :: 0 <= i < j < |outputs| ==> outputs[i] != outputs[j])
    && (forall root {:trigger ModInfoOf(root, archiveFolder)} :: IsRoot(entries, root) ==>
       ModInfoOf(root, archiveFolder) in outputs)
    && (forall p :: p in outputs ==> IsInside(entries, archiveFolder, p))
  }

  method FindSortedRoots(entries: seq<Entry>) returns (roots: seq<string>)
    ensures Sorted(roots) && forall root :: root in roots <==> IsRoot(entries, root)
  {
    var rootSet := FindRoots(entries);
    roots := SortRoots(rootSet);
  }

  // ---------- When an upload is accepted ----------

  ghost predicate SomeRoot(entries: seq<Entry>) {
    exists root :: IsRoot(entries, root)
  }

  /** The scan notices a root in a named one, and a root in the top of the archive when it sorts behind it. */
  predicate Noticed(a: string, b: string) {
    if a == "." then Less(a, b) else Ancestor(a, b)
  }

  ghost predicate NestingNoticed(entries: seq<Entry>) {
    exists a, b :: IsRoot(entries, a) && IsRoot(entries, b) && Noticed(a, b)
  }

  ghost predicate RootsAre(entries: seq<Entry>, roots: seq<string>) {
    Sorted(roots) && forall root :: root in roots <==> IsRoot(entries, root)
  }

  lemma ScanPassesIffNotNoticed(entries: seq<Entry>, roots: seq<string>)
    requires RootsAre(entries, roots)
    ensures ScanPasses(roots) <==> !NestingNoticed(entries)
  {
    if ScanPasses(roots) {
      ScanPassesIff(roots);
      forall a, b | IsRoot(entries, a) && IsRoot(entries, b) ensures !Noticed(a, b) {
        var i := IndexOf(roots, a);
        var j := IndexOf(roots, b);
        if Less(a, b) { LessIsStrict(a, b); }
      }
    } else {
      var i, j :| 0 <= i < j < |roots| && !Apart(roots[i], roots[j]);
      assert roots[i] in roots && roots[j] in roots;
      assert Noticed(roots[i], roots[j]);
    }
  }

  /** Every mod gets a folder, no two the same but for letter case, and none that is in quarantine already. */
  ghost predicate FoldersFit(entries: seq<Entry>, archiveFolder: string, present: set<string>) {
    && (forall a :: IsRoot(entries, a) ==> FolderOf(a, archiveFolder) != "" && FolderOf(a, archiveFolder) !in present)
    && (forall a, b :: IsRoot(entries, a) && IsRoot(entries, b) && a != b ==>
          Lower(FolderOf(a, archiveFolder)) != Lower(FolderOf(b, archiveFolder)))
  }

  lemma MisfitsAreNamed(entries: seq<Entry>, archiveFolder: string, present: set<string>, roots: seq<string>)
    requires RootsAre(entries, roots)
    requires SomeFolderEmpty(roots, archiveFolder) || SomeFoldersCollide(roots, archiveFolder)
             || SomeFolderPresent(roots, archiveFolder, present)
    ensures !FoldersFit(entries, archiveFolder, present)
  {
    forall i | 0 <= i < |roots| ensures IsRoot(entries, roots[i]) {
      assert roots[i] in roots;
    }
    forall i, j | 0 <= i < j < |roots| ensures roots[i] != roots[j] {
      SortedAreDifferent(roots, i, j);
    }
  }

  /** Two mods get folders that differ in letter case at most. */
  ghost predicate SomeCollide(entries: seq<Entry>, archiveFolder: string) {
    exists a, b :: IsRoot(entries, a) && IsRoot(entries, b) && a != b
                   && Lower(FolderOf(a, archiveFolder)) == Lower(FolderOf(b, archiveFolder))
  }

  lemma CollisionIsNamed(entries: seq<Entry>, archiveFolder: string, roots: seq<string>)
    requires RootsAre(entries, roots) && SomeFoldersCollide(roots, archiveFolder)
    ensures SomeCollide(entries, archiveFolder)
  {
    var i, j :| 0 <= i < j < |roots|
                && Lower(FolderOf(roots[i], archiveFolder)) == Lower(FolderOf(roots[j], archiveFolder));
    SortedAreDifferent(roots, i, j);
    assert roots[i] in roots && roots[j] in roots;
  }

  lemma AssignedFoldersFit(entries: seq<Entry>, archiveFolder: string, present: set<string>, roots: seq<string>,
      folders: seq<string>)
    requires RootsAre(entries, roots) && |folders| == |roots| && Distinct(folders)
    requires forall i :: 0 <= i < |roots| ==> folders[i] == FolderOf(roots[i], archiveFolder) != ""
    requires forall i :: 0 <= i < |roots| ==> folders[i] !in present
    ensures FoldersFit(entries, archiveFolder, present)
  {
    forall a | IsRoot(entries, a)
      ensures FolderOf(a, archiveFolder) != "" && FolderOf(a, archiveFolder) !in present
    {
      var i := IndexOf(roots, a);
    }
    forall a, b | IsRoot(entries, a) && IsRoot(entries, b) && a != b
      ensures Lower(FolderOf(a, archiveFolder)) != Lower(FolderOf(b, archiveFolder))
    {
      DifferentFolders(roots, folders, a, b);
      var i := IndexOf(roots, a);
      var j := IndexOf(roots, b);
    }
  }

  lemma DifferentFolders(roots: seq<string>, folders: seq<string>, a: string, b: string)
    requires |folders| == |roots| && Distinct(folders) && a in roots && b in roots && a != b
    ensures forall i, j :: 0 <= i < |roots| && 0 <= j < |roots| && roots[i] == a && roots[j] == b ==>
              Lower(folders[i]) != Lower(folders[j])
  {
  }

  /** An entry belongs to its named root, or without one to the top of the archive if that is a root. */
  ghost predicate IsRootOf(entries: seq<Entry>, root: string, clean: string) {
    && IsRoot(entries, root) && Belongs(root, clean)
    && (root == "." ==> forall other :: IsRoot(entries, other) && other != "." ==> !Belongs(other, clean))
  }

  ghost predicate GoesTo(entries: seq<Entry>, archiveFolder: string, clean: string, output: string) {
    exists root :: IsRootOf(entries, root, clean) && Relative(clean, root) != ""
                   && output == FolderOf(root, archiveFolder) + "/" + Normalized(Relative(clean, root))
  }

  /** No two entries go to the same output. */
  ghost predicate OutputsDiffer(entries: seq<Entry>, archiveFolder: string) {
    forall i, j, p :: 0 <= i < j < |entries| && GoesTo(entries, archiveFolder, entries[i].name, p) ==>
      !GoesTo(entries, archiveFolder, entries[j].name, p)
  }

  lemma RootForIsRootOf(entries: seq<Entry>, roots: seq<string>, clean: string, root: string)
    requires RootsAre(entries, roots) && ScanPasses(roots)
    ensures IsRootOf(entries, root, clean) <==>
            RootFor(roots, clean, 0) < |roots| && roots[RootFor(roots, clean, 0)] == root
  {
    var k := RootFor(roots, clean, 0);
    ScanPassesIff(roots);
    if k < |roots| && roots[k] == root {
      assert roots[k] in roots;
      forall other | IsRoot(entries, other) && other != "." && root == "." ensures !Belongs(other, clean) {
        var j := IndexOf(roots, other);
      }
    }
    if IsRootOf(entries, root, clean) {
      var j := IndexOf(roots, root);
      assert k <= j && roots[k] in roots;
      if roots[k] != "." && root != "." { AtMostOneNamedRoot(roots, clean, k, j); }
    }
  }

  lemma OutputIffGoesTo(entries: seq<Entry>, archiveFolder: string, roots: seq<string>, folders: seq<string>,
      clean: string, output: string)
    requires RootsAre(entries, roots) && ScanPasses(roots) && |folders| == |roots|
    requires forall i :: 0 <= i < |roots| ==> folders[i] == FolderOf(roots[i], archiveFolder)
    ensures Output(roots, folders, clean) == Some(output) <==> GoesTo(entries, archiveFolder, clean, output)
  {
    var k := RootFor(roots, clean, 0);
    if k < |roots| { RootForIsRootOf(entries, roots, clean, roots[k]); }
    if root :| IsRootOf(entries, root, clean) && Relative(clean, root) != ""
               && output == FolderOf(root, archiveFolder) + "/" + Normalized(Relative(clean, root)) {
      RootForIsRootOf(entries, roots, clean, root);
    }
  }

  lemma NoClashIffOutputsDiffer(entries: seq<Entry>, archiveFolder: string, roots: seq<string>, folders: seq<string>)
    requires RootsAre(entries, roots) && ScanPasses(roots) && |folders| == |roots|
    requires forall i :: 0 <= i < |roots| ==> folders[i] == FolderOf(roots[i], archiveFolder)
    ensures var outputs := Outputs(entries, roots, folders);
            (forall i, j :: 0 <= i < j < |outputs| ==> !Clash(outputs[i], outputs[j])) <==>
            OutputsDiffer(entries, archiveFolder)
  {
    var outputs := Outputs(entries, roots, folders);
    if i, j :| 0 <= i < j < |outputs| && Clash(outputs[i], outputs[j]) {
      SameOutput(entries, archiveFolder, roots, folders, i, j, outputs[i].value);
    }
    if i, j, p :| 0 <= i < j < |entries| && GoesTo(entries, archiveFolder, entries[i].name, p)
                  && GoesTo(entries, archiveFolder, entries[j].name, p) {
      SameOutput(entries, archiveFolder, roots, folders, i, j, p);
      assert Clash(outputs[i], outputs[j]);
    }
  }

  lemma SameOutput(entries: seq<Entry>, archiveFolder: string, roots: seq<string>, folders: seq<string>,
      i: nat, j: nat, p: string)
    requires RootsAre(entries, roots) && ScanPasses(roots) && |folders| == |roots|
    requires forall k :: 0 <= k < |roots| ==> folders[k] == FolderOf(roots[k], archiveFolder)
    requires i < |entries| && j < |entries|
    ensures Outputs(entries, roots, folders)[i] == Some(p) == Outputs(entries, roots, folders)[j] <==>
            GoesTo(entries, archiveFolder, entries[i].name, p) && GoesTo(entries, archiveFolder, entries[j].name, p)
  {
    OutputIffGoesTo(entries, archiveFolder, roots, folders, entries[i].name, p);
    OutputIffGoesTo(entries, archiveFolder, roots, folders, entries[j].name, p);
  }

  // ---------- Where every entry ends up, by its name ----------

  /** A path is a file name, or a directory, a slash and a file name. */
  predicate Splits(path: string, dir: string, base: string) {
    '/' !in base && path == if dir == "" then base else dir + "/" + base
  }

  /** The entry is a ModInfo.xml, in any letter case, in this directory, or at the top for ".". */
  ghost predicate InfoIn(e: Entry, root: string) {
    exists dir, base :: !e.isDir && Splits(e.name, dir, base) && Lower(base) == "modinfo.xml"
                        && root == (if dir == "" then "." else dir)
  }

  ghost predicate HasModInfo(entries: seq<Entry>, root: string) {
    exists e :: e in entries && InfoIn(e, root)
  }

  /** What is left of a name below its own mod; below the top that is any name outside the other mods. */
  ghost predicate LiesUnder(entries: seq<Entry>, root: string, name: string, rest: string) {
    && HasModInfo(entries, root) && rest != ""
    && if root != "." then name == root + "/" + rest
       else
         && name == rest
         && forall other :: HasModInfo(entries, other) && other != "." ==> name != other && !(other + "/" <= name)
  }

  /** A ModInfo.xml in any letter case gets that name and keeps its directory; everything else keeps its whole path. */
  ghost predicate InstalledAs(rest: string, target: string) {
    exists dir, base :: Splits(rest, dir, base)
                        && (if Lower(base) == "modinfo.xml" then Splits(target, dir, "ModInfo.xml") else target == rest)
  }

  ghost predicate WrittenTo(entries: seq<Entry>, archiveFolder: string, name: string, output: string) {
    exists root, rest, target :: LiesUnder(entries, root, name, rest) && InstalledAs(rest, target)
                                 && output == FolderOf(root, archiveFolder) + "/" + target
  }

  lemma CleanHasName(s: string)
    requires IsClean(s)
    ensures s != "" && s[0] != '/' && s[|s| - 1] != '/'
  {
    if s == "" || s[0] == '/' {
      EmptyComponent(s, 0);
    } else if s[|s| - 1] == '/' {
      EmptyComponent(s, |s|);
    }
  }

  lemma EmptyComponent(s: string, a: nat)
    requires StartsComponent(s, a) && EndsComponent(s, a)
    ensures !IsClean(s)
  {
    assert s[a..a] == "";
  }

  lemma NoSlashBehind(s: string, k: nat)
    requires k < |s| && '/' !in s[k + 1..]
    ensures forall i :: k < i < |s| ==> s[i] != '/'
  {
    forall i | k < i < |s| ensures s[i] != '/' {
      assert s[k + 1..][i - k - 1] == s[i];
    }
  }

  lemma LastSlashIs(s: string, k: nat)
    requires k < |s| && s[k] == '/' && '/' !in s[k + 1..]
    ensures LastSlash(s) == k
  {
    NoSlashBehind(s, k);
    if LastSlash(s) < |s| { NoSlashBehind(s, LastSlash(s)); }
  }

  /** The directory of a path, or nothing for a plain file name. */
  function DirOrNone(s: string): string {
    if LastSlash(s) == |s| then "" else Dir(s)
  }

  lemma SplitsHere(s: string)
    requires s != "" && s[0] != '/'
    ensures Splits(s, DirOrNone(s), Base(s))
  {
    var k := LastSlash(s);
    if k < |s| { assert s == s[..k] + "/" + s[k + 1..]; }
  }

  lemma SplitsOnce(s: string, dir: string, base: string)
    requires Splits(s, dir, base)
    ensures base == Base(s) && dir == DirOrNone(s)
  {
    if dir != "" {
      assert s[|dir|] == '/' && base == s[|dir| + 1..] && s[..|dir|] == dir;
      LastSlashIs(s, |dir|);
    }
  }

  lemma MarksRootIff(e: Entry, root: string)
    requires IsClean(e.name)
    ensures MarksRoot(e, root) <==> InfoIn(e, root)
  {
    CleanHasName(e.name);
    SplitsHere(e.name);
    if d, b :| !e.isDir && Splits(e.name, d, b) && Lower(b) == "modinfo.xml" && root == (if d == "" then "." else d) {
      SplitsOnce(e.name, d, b);
    }
  }

  lemma IsRootIff(entries: seq<Entry>, root: string)
    requires AllClean(entries)
    ensures IsRoot(entries, root) <==> HasModInfo(entries, root)
  {
    if e :| e in entries && MarksRoot(e, root) { MarksRootIff(e, root); }
    if e :| e in entries && InfoIn(e, root) { MarksRootIff(e, root); }
  }

  lemma NormalizedSplits(rest: string)
    requires IsClean(rest) && IsModInfo(rest)
    ensures Splits(Normalized(rest), DirOrNone(rest), "ModInfo.xml")
  {
    ModInfoIn(Dir(rest));
    if Dir(rest) == "." { TopHasNoSlash(rest); }
    if LastSlash(rest) < |rest| {
      CleanHasName(rest);
      assert DirOrNone(rest) == rest[..LastSlash(rest)] != "";
    }
  }

  lemma InstalledAsIff(rest: string, target: string)
    requires IsClean(rest)
    ensures InstalledAs(rest, target) <==> target == Normalized(rest)
  {
    CleanHasName(rest);
    SplitsHere(rest);
    if IsModInfo(rest) { NormalizedSplits(rest); }
    if d, b :| Splits(rest, d, b)
               && (if Lower(b) == "modinfo.xml" then Splits(target, d, "ModInfo.xml") else target == rest) {
      SplitsOnce(rest, d, b);
    }
  }

  lemma ModInfoIn(dir: string)
    ensures dir + "/" + "ModInfo.xml" == dir + "/ModInfo.xml"
  {
  }

  lemma LiesUnderIff(entries: seq<Entry>, root: string, name: string, rest: string)
    requires AllClean(entries) && IsClean(name)
    ensures LiesUnder(entries, root, name, rest) <==>
            IsRootOf(entries, root, name) && rest == Relative(name, root) != ""
  {
    forall other ensures IsRoot(entries, other) <==> HasModInfo(entries, other) {
      IsRootIff(entries, other);
    }
    if root != "." && name == root + "/" + rest { assert name[|root| + 1..] == rest; }
    if root != "." && Ancestor(root, name) {
      assert name == root + "/" + name[|root| + 1..];
    }
  }

  lemma GoesToIff(entries: seq<Entry>, archiveFolder: string, name: string, output: string)
    requires AllClean(entries) && IsClean(name)
    ensures GoesTo(entries, archiveFolder, name, output) <==> WrittenTo(entries, archiveFolder, name, output)
  {
    if root :| IsRootOf(entries, root, name) && Relative(name, root) != ""
               && output == FolderOf(root, archiveFolder) + "/" + Normalized(Relative(name, root)) {
      LiesUnderIff(entries, root, name, Relative(name, root));
      RelativeIsClean(name, root);
      InstalledAsIff(Relative(name, root), Normalized(Relative(name, root)));
    }
    if root, rest, target :| LiesUnder(entries, root, name, rest) && InstalledAs(rest, target)
                             && output == FolderOf(root, archiveFolder) + "/" + target {
      LiesUnderIff(entries, root, name, rest);
      RelativeIsClean(name, root);
      InstalledAsIff(rest, target);
    }
  }

  /** Every entry below a mod is written to its place in the mod's folder, and nothing else is. */
  ghost predicate WritesExactly(entries: seq<Entry>, archiveFolder: string, outputs: seq<string>) {
    forall p :: p in outputs <==> exists e :: e in entries && WrittenTo(entries, archiveFolder, e.name, p)
  }

  lemma ExtractedExactly(entries: seq<Entry>, archiveFolder: string, roots: seq<string>, folders: seq<string>,
      written: seq<string>)
    requires AllClean(entries) && RootsAre(entries, roots) && ScanPasses(roots) && |folders| == |roots|
    requires forall i :: 0 <= i < |roots| ==> folders[i] == FolderOf(roots[i], archiveFolder)
    requires forall p :: p in written <==> Some(p) in Outputs(entries, roots, folders)
    ensures WritesExactly(entries, archiveFolder, written)
  {
    var outputs := Outputs(entries, roots, folders);
    forall p ensures p in written <==> exists e :: e in entries && WrittenTo(entries, archiveFolder, e.name, p) {
      if p in written {
        var i :| 0 <= i < |outputs| && outputs[i] == Some(p);
        OutputIffGoesTo(entries, archiveFolder, roots, folders, entries[i].name, p);
        GoesToIff(entries, archiveFolder, entries[i].name, p);
        assert entries[i] in entries;
      }
      if e :| e in entries && WrittenTo(entries, archiveFolder, e.name, p) {
        var i :| 0 <= i < |entries| && entries[i] == e;
        OutputIffGoesTo(entries, archiveFolder, roots, folders, e.name, p);
        GoesToIff(entries, archiveFolder, e.name, p);
        assert outputs[i] == Some(p);
      }
    }
  }

  /** A directory whose name is plain already keeps it as the name of its folder. */
  lemma PlainFolderIsKept(root: string, dir: string, base: string, archiveFolder: string)
    requires Splits(root, dir, base) && root != "" && root[0] != '/' && root != "." && Lower(base) != "mods"
    requires 0 < |base| <= 100 && !IsTrimmed(base[0]) && !IsTrimmed(base[|base| - 1])
    requires forall i :: 0 <= i < |base| ==> IsPlain(base[i])
    ensures FolderOf(root, archiveFolder) == base
  {
    SplitsOnce(root, dir, base);
    PlainIsKept(base);
  }

  /** A mod at the top, or in a directory called Mods, is named after the archive. */
  lemma TopIsNamedAfterArchive(root: string, dir: string, base: string, archiveFolder: string)
    requires root == "." || (root != "" && root[0] != '/' && Splits(root, dir, base) && Lower(base) == "mods")
    requires 0 < |archiveFolder| <= 100
    requires !IsTrimmed(archiveFolder[0]) && !IsTrimmed(archiveFolder[|archiveFolder| - 1])
    requires forall i :: 0 <= i < |archiveFolder| ==> IsPlain(archiveFolder[i])
    ensures FolderOf(root, archiveFolder) == archiveFolder
  {
    if root != "." { SplitsOnce(root, dir, base); }
    PlainIsKept(archiveFolder);
  }

  lemma PlainIsKept(s: string)
    requires s != "" && |s| <= 100 && !IsTrimmed(s[0]) && !IsTrimmed(s[|s| - 1])
    requires forall i :: 0 <= i < |s| ==> IsPlain(s[i])
    ensures Sanitized(s) == s
  {
    PlainIsNotUnderscored(s, false);
  }

  lemma {:induction false} PlainIsNotUnderscored(s: string, inRun: bool)
    requires forall i :: 0 <= i < |s| ==> IsPlain(s[i])
    ensures Underscored(s, inRun) == s
  {
    if s != "" {
      PlainIsNotUnderscored(s[1..], false);
      assert s == [s[0]] + s[1..];
    }
  }

  /** The roots of an archive, unless there is none or one is noticed in another. */
  method CheckRoots(entries: seq<Entry>) returns (r: Result<seq<string>, Error>)
    ensures r == Err(NoModInfo) <==> !SomeRoot(entries)
    ensures r == Err(Nested) <==> NestingNoticed(entries)
    ensures r.Err? ==> r.error == NoModInfo || r.error == Nested
    ensures r.Ok? ==> RootsAre(entries, r.value) && ScanPasses(r.value)
  {
    var roots := FindSortedRoots(entries);
    ScanPassesIffNotNoticed(entries, roots);
    if roots == [] { return Err(NoModInfo); }
    assert roots[0] in roots;
    var ok := ScanForNesting(roots);
    return if ok then Ok(roots) else Err(Nested);
  }

  /** The folders of the roots, and the entries in the order they are extracted in. */
  method Place(entries: seq<Entry>, archiveFolder: string, present: set<string>, roots: seq<string>)
    returns (r: Result<seq<string>, Error>)
    requires AllClean(entries) && RootsAre(entries, roots) && ScanPasses(roots)
    ensures r.Ok? <==> FoldersFit(entries, archiveFolder, present) && OutputsDiffer(entries, archiveFolder)
    ensures r.Ok? ==> Complete(entries, archiveFolder, r.value) && WritesExactly(entries, archiveFolder, r.value)
    ensures r.Err? ==> r.error in {BadFolder, SameFolder, AlreadyThere, DuplicateOutput}
    ensures r == Err(DuplicateOutput) ==> FoldersFit(entries, archiveFolder, present)
    ensures r.Err? && FoldersFit(entries, archiveFolder, present) ==> r == Err(DuplicateOutput)
    ensures r == Err(BadFolder) ==> exists a :: IsRoot(entries, a) && FolderOf(a, archiveFolder) == ""
    ensures r == Err(SameFolder) ==> SomeCollide(entries, archiveFolder)
    ensures r == Err(AlreadyThere) ==> exists a :: IsRoot(entries, a) && FolderOf(a, archiveFolder) in present
  {
    var folders := AssignFolders(roots, archiveFolder, present);
    if folders.Err? {
      MisfitsAreNamed(entries, archiveFolder, present, roots);
      forall i | 0 <= i < |roots| ensures IsRoot(entries, roots[i]) { assert roots[i] in roots; }
      if folders.error == SameFolder { CollisionIsNamed(entries, archiveFolder, roots); }
      return Err(folders.error);
    }
    AssignedFoldersFit(entries, archiveFolder, present, roots, folders.value);
    NoClashIffOutputsDiffer(entries, archiveFolder, roots, folders.value);
    r := Extract(entries, roots, folders.value);
    if r.Ok? {
      UploadIsComplete(entries, archiveFolder, roots, folders.value, r.value);
      ExtractedExactly(entries, archiveFolder, roots, folders.value, r.value);
    }
  }

  /** A whole upload: it is accepted in one case, and a refusal says which of the conditions failed. */
  method InstallUpload(entries: seq<Entry>, archiveFolder: string, present: set<string>)
    returns (r: Result<seq<string>, Error>)
    requires AllClean(entries)
    ensures r.Ok? <==>
            SomeRoot(entries) && !NestingNoticed(entries) && FoldersFit(entries, archiveFolder, present)
                && OutputsDiffer(entries, archiveFolder)
    ensures r.Ok? ==> Complete(entries, archiveFolder, r.value) && WritesExactly(entries, archiveFolder, r.value)
    ensures r == Err(NoModInfo) <==> !SomeRoot(entries)
    ensures r == Err(Nested) <==> NestingNoticed(entries)
    ensures r == Err(DuplicateOutput) <==>
            SomeRoot(entries) && !NestingNoticed(entries) && FoldersFit(entries, archiveFolder, present)
                && !OutputsDiffer(entries, archiveFolder)
    ensures r == Err(BadFolder) ==> exists a :: IsRoot(entries, a) && FolderOf(a, archiveFolder) == ""
    ensures r == Err(SameFolder) ==> SomeCollide(entries, archiveFolder)
    ensures r == Err(AlreadyThere) ==> exists a :: IsRoot(entries, a) && FolderOf(a, archiveFolder) in present
  {
    var roots := CheckRoots(entries);
    if roots.Err? { return Err(roots.error); }
    r := Place(entries, archiveFolder, present, roots.value);
  }

  lemma UploadIsComplete(entries: seq<Entry>, archiveFolder: string, roots: seq<string>, folders: seq<string>,
      written: seq<string>)
    requires |folders| == |roots| && AllClean(entries) && Sorted(roots) && ScanPasses(roots)
    requires forall root :: root in roots <==> IsRoot(entries, root)
    requires forall i :: 0 <= i < |roots| ==> folders[i] == FolderOf(roots[i], archiveFolder) != ""
    requires forall p :: p in written <==> Some(p) in Outputs(entries, roots, folders)
    requires forall i, j :: 0 <= i < j < |written| ==> written[i] != written[j]
    ensures Complete(entries, archiveFolder, written)
  {
    forall root | IsRoot(entries, root) ensures ModInfoOf(root, archiveFolder) in written {
      var k := IndexOf(roots, root);
      EveryRootGetsModInfo(entries, roots, folders, k);
    }
    forall p | p in written ensures IsInside(entries, archiveFolder, p) {
      WrittenIsBelow(entries, roots, folders, archiveFolder, p);
    }
  }

  lemma IndexOf(roots: seq<string>, root: string) returns (k: nat)
    requires root in roots
    ensures k < |roots| && roots[k] == root
  {
    k :| 0 <= k < |roots| && roots[k] == root;
  }

  lemma WrittenIsBelow(entries: seq<Entry>, roots: seq<string>, folders: seq<string>, archiveFolder: string, p: string)
    requires |folders| == |roots| && AllClean(entries) && Some(p) in Outputs(entries, roots, folders)
    requires forall root :: root in roots <==> IsRoot(entries, root)
    requires forall i :: 0 <= i < |roots| ==> folders[i] == FolderOf(roots[i], archiveFolder) != ""
    ensures IsInside(entries, archiveFolder, p)
  {
    var outputs := Outputs(entries, roots, folders);
    var i :| 0 <= i < |outputs| && outputs[i] == Some(p);
    assert entries[i] in entries;
    OutputIsBelow(roots, folders, archiveFolder, entries[i].name);
    assert roots[RootFor(roots, entries[i].name, 0)] in roots;
  }

  lemma SortedAreDifferent(roots: seq<string>, i: nat, j: nat)
    requires Sorted(roots) && i < j < |roots|
    ensures roots[i] != roots[j]
  {
    LessIsStrict(roots[i], roots[j]);
  }
}
