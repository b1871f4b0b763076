/** What a `*` in a source file's name selects. The loader cuts one character after the last backslash, takes the
    rest as a suffix and compares it with the end of every directory entry; the reference is the pattern itself. */
module Wildcards {
  import opened Wrappers
  import opened Loader

  function LastSlash(source: string): int {
    LastIndexOf(source, '\\', |source|)
  }

  /** The mask is what follows a star exactly when that star follows the last backslash. */
  lemma {:induction false} MaskFollowsStar(source: string, j: nat)
    requires j < |source| && source[j] == '*'
    ensures RawMask(source) == Some(source[j + 1..]) <==> LastSlash(source) >= 0 && j == LastSlash(source) + 1
  {
    var k := LastSlash(source);
    if k >= 0 && k + 2 <= |source| {
      assert |source[k + 2..]| == |source| - k - 2 && |source[j + 1..]| == |source| - j - 1;
    }
  }

  predicate HasStar(s: string) {
    exists i :: 0 <= i < |s| && s[i] == '*'
  }

  // ---- The reference ----

  /** `name` matches `pattern`, in which every `*` stands for any text. */
  predicate Fits(pattern: string, name: string)
    decreases |pattern|, |name|
  {
    if pattern == "" then name == ""
    else if pattern[0] == '*' then Fits(pattern[1..], name) || (name != "" && Fits(pattern, name[1..]))
    else name != "" && name[0] == pattern[0] && Fits(pattern[1..], name[1..])
  }

  /** The file's name in `source`. */
  function FilePattern(source: string): string {
    source[LastSlash(source) + 1..]
  }

  predicate FileName(name: string) {
    !HasStar(name) && '\\' !in name
  }

  /** The path under which a directory iterator lists a file. */
  function Child(dir: string, name: string): string {
    if dir == "" || dir[|dir| - 1] == '\\' then dir + name else dir + "\\" + name
  }

  function Children(dir: string, names: seq<string>): (files: seq<string>)
    ensures |files| == |names|
  {
    seq(|names|, i requires 0 <= i < |names| => Child(dir, names[i]))
  }

  /** The paths of the matching ones among the first `n` files, in listing order. */
  function Fitting(dir: string, names: seq<string>, pattern: string, n: nat): seq<string>
    requires n <= |names|
  {
    if n == 0 then []
    else
      var front := Fitting(dir, names, pattern, n - 1);
      if Fits(pattern, names[n - 1]) then front + [Child(dir, names[n - 1])] else front
  }

  /** Names are taken as already case-folded. */
  ghost predicate Folded(disk: Disk) {
    forall s :: disk.lower(s) == s
  }

  predicate AllFileNames(names: seq<string>) {
    forall i | 0 <= i < |names| :: FileName(names[i])
  }

  /** The scan of a directory with these files throws or selects the matching ones, in order. */
  ghost predicate SelectsFitting(source: string, disk: Disk, names: seq<string>)
    requires RawMask(source).Some?
  {
    var dir := Directory(source);
    var chosen := Selected(Children(dir, names), RawMask(source).value, disk, |names|);
    chosen.Some? ==> chosen.value == Fitting(dir, names, FilePattern(source), |names|)
  }

  /** So does the scan of any directory. */
  ghost predicate SelectsRightly(source: string, disk: Disk)
    requires RawMask(source).Some?
  {
    forall names | AllFileNames(names) :: SelectsFitting(source, disk, names)
  }

  lemma {:induction false} PlainFits(pattern: string, name: string)
    requires !HasStar(pattern)
    ensures Fits(pattern, name) <==> name == pattern
  {
    if pattern != "" && name != "" { PlainFits(pattern[1..], name[1..]); }
  }

  predicate EndsIn(name: string, mask: string) {
    |mask| <= |name| && name[|name| - |mask|..] == mask
  }

  lemma {:induction false} EndsInRest(name: string, mask: string)
    requires name != ""
    ensures EndsIn(name, mask) <==> name == mask || EndsIn(name[1..], mask)
  {
    if |mask| < |name| {
      assert name[1..][|name| - 1 - |mask|..] == name[|name| - |mask|..];
    } else if |mask| == |name| {
      assert name[0..] == name;
    }
  }

  /** A star and plain text match what ends in the text. */
  lemma {:induction false} StarFits(pattern: string, name: string)
    requires pattern != "" && pattern[0] == '*' && !HasStar(pattern[1..])
    ensures Fits(pattern, name) <==> EndsIn(name, pattern[1..])
    decreases |name|
  {
    PlainFits(pattern[1..], name);
    if name != "" {
      StarFits(pattern, name[1..]);
      EndsInRest(name, pattern[1..]);
    }
  }

  // ---- The star in its place ----

  /** What is in front of a file's name in its path: nothing, or something that ends in a backslash. */
  function Front(dir: string): (front: string)
    ensures front == "" || front[|front| - 1] == '\\'
    ensures forall name :: Child(dir, name) == front + name
  {
    if dir == "" || dir[|dir| - 1] == '\\' then dir else dir + "\\"
  }

  lemma {:induction false} SameEnd(front: string, name: string, mask: string)
    requires '\\' !in mask && |mask| <= |front + name| && (front == "" || front[|front| - 1] == '\\')
    ensures var c := front + name;
            c[|c| - |mask|..] == mask <==> EndsIn(name, mask)
  {
    var c := front + name;
    var tail := c[|c| - |mask|..];
    if |mask| <= |name| {
      assert tail == name[|name| - |mask|..];
    } else {
      assert tail[|front| - 1 - (|c| - |mask|)] == '\\';
    }
  }

  /** A file's name with one star, which comes first. */
  predicate OneStar(pattern: string) {
    pattern != "" && pattern[0] == '*' && !HasStar(pattern[1..]) && '\\' !in pattern
  }

  lemma {:induction false} SelectStep(dir: string, name: string, pattern: string, disk: Disk)
    requires OneStar(pattern) && Folded(disk)
    ensures var c, mask := Child(dir, name), pattern[1..];
            && disk.lower(c) == c
            && var tail := Substr(c, |c| - |mask|);
               tail.Some? ==> (tail.value == mask <==> Fits(pattern, name))
  {
    var c, mask := Child(dir, name), pattern[1..];
    assert c == Front(dir) + name;
    StarFits(pattern, name);
    if |mask| <= |c| { SameEnd(Front(dir), name, mask); }
  }

  lemma {:induction false} SelectedOneMore(
    dir: string, names: seq<string>, pattern: string, disk: Disk, n: nat, chosen: seq<string>)
    requires OneStar(pattern) && Folded(disk)
    requires n < |names| && Selected(Children(dir, names), pattern[1..], disk, n) == Some(chosen)
    ensures var c, more := Child(dir, names[n]), Selected(Children(dir, names), pattern[1..], disk, n + 1);
            more.Some? ==> more.value == if Fits(pattern, names[n]) then chosen + [c] else chosen
  {
    var c, mask := Child(dir, names[n]), pattern[1..];
    assert Children(dir, names)[n] == c;
    SelectStep(dir, names[n], pattern, disk);
    if |mask| <= |c| { SelectedNext(Children(dir, names), mask, disk, n, chosen); }
  }

  lemma {:induction false} SelectedIsFitting(dir: string, names: seq<string>, pattern: string, disk: Disk, n: nat)
    requires OneStar(pattern) && Folded(disk) && n <= |names|
    ensures var chosen := Selected(Children(dir, names), pattern[1..], disk, n);
            chosen.Some? ==> chosen.value == Fitting(dir, names, pattern, n)
  {
    if n > 0 {
      SelectedIsFitting(dir, names, pattern, disk, n - 1);
      var front := Fitting(dir, names, pattern, n - 1);
      SelectedFront(Children(dir, names), pattern[1..], disk, n);
      if Selected(Children(dir, names), pattern[1..], disk, n).Some? {
        SelectedOneMore(dir, names, pattern, disk, n - 1, front);
      }
    }
  }

  lemma {:induction false} SelectedFront(files: seq<string>, mask: string, disk: Disk, n: nat)
    requires 0 < n <= |files|
    ensures Selected(files, mask, disk, n).Some? ==> Selected(files, mask, disk, n - 1).Some?
  {
  }

  // ---- A star elsewhere ----

  /** A name that matches but does not contain the mask, which keeps a star. */
  function Missed(pattern: string): (name: string)
    ensures |name| == |pattern|
  {
    seq(|pattern|, i requires 0 <= i < |pattern| => if pattern[i] == '*' then 'a' else pattern[i])
  }

  lemma {:induction false} MissedFits(pattern: string)
    requires '\\' !in pattern
    ensures Fits(pattern, Missed(pattern)) && FileName(Missed(pattern))
  {
    if pattern != "" {
      var name, rest := Missed(pattern), pattern[1..];
      MissedFits(rest);
      assert name[1..] == Missed(rest);
      assert pattern[0] == '*' ==> Fits(pattern, name[1..]);
    }
  }

  lemma {:induction false} NothingSelected(files: seq<string>, mask: string, disk: Disk)
    requires |files| == 1 && |mask| <= |disk.lower(files[0])|
    requires var c := disk.lower(files[0]);
             c[|c| - |mask|..] != mask
    ensures Selected(files, mask, disk, 1) == Some([])
  {
    var none: seq<string> := [];
    assert Selected(files, mask, disk, 0) == Some(none) && none + none == none;
  }

  /** A mask with a star in it is not the end of a path whose last part, at least as long, has none. */
  lemma {:induction false} StarIsNoEnd(front: string, name: string, mask: string)
    requires !HasStar(name) && HasStar(mask) && |mask| <= |name|
    ensures var c := front + name;
            c[|c| - |mask|..] != mask
  {
    var c := front + name;
    var i :| 0 <= i < |mask| && mask[i] == '*';
    assert c[|c| - |mask|..][i] == name[|name| - |mask| + i];
  }

  lemma {:induction false} StarIsMissed(dir: string, pattern: string, mask: string, disk: Disk)
    requires '\\' !in pattern && HasStar(mask) && |mask| <= |pattern| && Folded(disk)
    ensures Selected(Children(dir, [Missed(pattern)]), mask, disk, 1) == Some([])
  {
    MissedFits(pattern);
    var name := Missed(pattern);
    var c := Front(dir) + name;
    assert Children(dir, [name])[0] == c && disk.lower(c) == c;
    StarIsNoEnd(Front(dir), name, mask);
    NothingSelected(Children(dir, [name]), mask, disk);
  }

  lemma {:induction false} MissedIsFitting(dir: string, pattern: string)
    requires '\\' !in pattern
    ensures AllFileNames([Missed(pattern)]) && Fitting(dir, [Missed(pattern)], pattern, 1) != []
  {
    MissedFits(pattern);
  }

  // ---- Exactly when ----

  /** A star comes first in the file's name, behind a backslash, and there is no other. */
  predicate OneStarFirst(source: string) {
    var pattern := FilePattern(source);
    LastSlash(source) >= 0 && pattern != "" && pattern[0] == '*' && !HasStar(pattern[1..])
  }

  lemma {:induction false} PatternIsName(source: string)
    ensures '\\' !in FilePattern(source)
  {
    var k := LastSlash(source);
    assert forall m | 0 <= m < |source| - k - 1 :: FilePattern(source)[m] == source[k + 1 + m];
  }

  lemma {:induction false} MaskOf(source: string)
    requires HasStar(FilePattern(source))
    ensures RawMask(source)
            == Some(if LastSlash(source) >= 0 then FilePattern(source)[1..] else FilePattern(source))
    ensures HasStar(RawMask(source).value) <==> !OneStarFirst(source)
  {
    var pattern := FilePattern(source);
    if LastSlash(source) >= 0 {
      assert source[LastSlash(source) + 2..] == pattern[1..];
      assert pattern == [pattern[0]] + pattern[1..];
    } else {
      assert pattern == source;
    }
  }

  lemma {:induction false} RightPlace(source: string, disk: Disk)
    requires OneStarFirst(source) && Folded(disk)
    ensures RawMask(source).Some? && SelectsRightly(source, disk)
  {
    PatternIsName(source);
    MaskOf(source);
    forall names | AllFileNames(names) ensures SelectsFitting(source, disk, names) {
      SelectedIsFitting(Directory(source), names, FilePattern(source), disk, |names|);
    }
  }

  lemma {:induction false} NotSelected(source: string, disk: Disk, names: seq<string>)
    requires RawMask(source).Some? && AllFileNames(names)
    requires Selected(Children(Directory(source), names), RawMask(source).value, disk, |names|) == Some([])
    requires Fitting(Directory(source), names, FilePattern(source), |names|) != []
    ensures !SelectsRightly(source, disk)
  {
    assert !SelectsFitting(source, disk, names);
  }

  lemma {:induction false} StarInMask(source: string, pattern: string, mask: string, disk: Disk)
    requires pattern == FilePattern(source) && RawMask(source) == Some(mask) && Folded(disk)
    requires '\\' !in pattern && HasStar(mask) && |mask| <= |pattern|
    ensures !SelectsRightly(source, disk)
  {
    StarIsMissed(Directory(source), pattern, mask, disk);
    MissedIsFitting(Directory(source), pattern);
    NotSelected(source, disk, [Missed(pattern)]);
  }

  lemma {:induction false} PassedOver(source: string, disk: Disk)
    requires HasStar(FilePattern(source)) && !OneStarFirst(source) && Folded(disk)
    ensures RawMask(source).Some? && !SelectsRightly(source, disk)
  {
    PatternIsName(source);
    MaskOf(source);
    StarInMask(source, FilePattern(source), RawMask(source).value, disk);
  }

  /** For a file's name with stars in it, however many: exactly when the first character is its only star, and a
      backslash stands before it, does the scan select, from every directory, the files that match. In all other
      cases the mask keeps a star, and a matching file is passed over. */
  lemma {:induction false} WildcardIsRight(source: string, disk: Disk)
    requires HasStar(FilePattern(source)) && Folded(disk)
    ensures RawMask(source).Some?
    ensures SelectsRightly(source, disk) <==> OneStarFirst(source)
  {
    if OneStarFirst(source) {
      RightPlace(source, disk);
    } else {
      PassedOver(source, disk);
    }
  }

  lemma {:induction false} MaskBehind(source: string, k: nat)
    requires k + 2 <= |source| && source[k] == '\\' && forall i | k < i < |source| :: source[i] != '\\'
    ensures RawMask(source) == Some(source[k + 2..])
  {
  }

  lemma {:induction false} StarFitsBehind(c: char, pattern: string, name: string)
    requires c != '*' && name != "" && name[0] == c && Fits(pattern, name[1..])
    ensures Fits([c] + pattern, name)
  {
    assert ([c] + pattern)[1..] == pattern;
  }

  /** For instance `d\a*.c` does not select `d\ab.c`, nor does `d\*.c*` select `d\a.cc`. */
  lemma {:induction false} WildcardMisses(disk: Disk)
    requires Folded(disk)
    ensures RawMask("d\\a*.c") == Some("*.c") && Fits("a*.c", "ab.c")
    ensures Selected(["d\\ab.c"], "*.c", disk, 1) == Some([])
    ensures RawMask("d\\*.c*") == Some(".c*") && Fits("*.c*", "a.cc")
    ensures Selected(["d\\a.cc"], ".c*", disk, 1) == Some([])
  {
    TextFirst(disk);
    TwoStars(disk);
  }

  lemma {:induction false} TextFirst(disk: Disk)
    requires Folded(disk)
    ensures RawMask("d\\a*.c") == Some("*.c") && Fits("a*.c", "ab.c")
    ensures Selected(["d\\ab.c"], "*.c", disk, 1) == Some([])
  {
    var file := "d\\ab.c";
    MaskBehind("d\\a*.c", 1);
    assert file[3..] == "b.c" && "b.c"[0] != "*.c"[0];
    NothingSelected([file], "*.c", disk);
    TextFirstFits();
  }

  lemma {:induction false} TextFirstFits()
    ensures Fits("a*.c", "ab.c")
  {
    StarFits("*.c", "b.c");
    assert "ab.c"[1..] == "b.c" && "a*.c" == ['a'] + "*.c";
    StarFitsBehind('a', "*.c", "ab.c");
  }

  lemma {:induction false} TwoStars(disk: Disk)
    requires Folded(disk)
    ensures RawMask("d\\*.c*") == Some(".c*") && Fits("*.c*", "a.cc")
    ensures Selected(["d\\a.cc"], ".c*", disk, 1) == Some([])
  {
    var file := "d\\a.cc";
    MaskBehind("d\\*.c*", 1);
    assert file[3..] == ".cc" && ".cc"[2] != ".c*"[2];
    NothingSelected([file], ".c*", disk);
    TwoStarsFit();
  }

  lemma {:induction false} TwoStarsFit()
    ensures Fits("*.c*", "a.cc")
  {
    StarFits("*", "c");
    assert "cc"[1..] == "c" && "c*" == ['c'] + "*";
    StarFitsBehind('c', "*", "cc");
    assert ".cc"[1..] == "cc" && ".c*" == ['.'] + "c*";
    StarFitsBehind('.', "c*", ".cc");
    assert "*.c*"[1..] == ".c*" && "a.cc"[1..] == ".cc";
    assert Fits("*.c*", ".cc");
  }
}
