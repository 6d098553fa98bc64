/**
 Which formats may cross in a direction, and which one is asked for.

 A feature mask is the set of its bits; `(mask & check) == check` is then
 inclusion and `(mask & bits) != 0` a non-empty intersection.
 */
module FormatFilter {
  import opened Wire
  import opened FormatList

  datatype Direction = LocalToRemote | LocalToRemoteFiles | RemoteToLocal | RemoteToLocalFiles

  type Mask = set<Direction>

  function Ascii(s: string): Name { seq(|s|, i requires 0 <= i < |s| => (s[i] as int) % 0x1_0000) }

  const FILE_GROUP_DESCRIPTOR := Ascii("FileGroupDescriptorW")
  const FILE_CONTENTS := Ascii("FileContents")
  const PNG := Ascii("PNG")

  predicate IsFileFormat(f: Format) {
    f.name == Some(FILE_GROUP_DESCRIPTOR) || f.name == Some(FILE_CONTENTS)
  }

  function Pick(f: Format, files: bool): seq<Format> { if IsFileFormat(f) == files then [f] else [] }

  function Select(fs: seq<Format>, files: bool): seq<Format> {
    if fs == [] then [] else Pick(fs[0], files) + Select(fs[1..], files)
  }

  lemma {:induction false} SelectAppend(a: seq<Format>, f: Format, files: bool)
    ensures Select(a + [f], files) == Select(a, files) + Pick(f, files)
  {
    hide Pick;
    if a == [] {
      assert a + [f] == [f] && [f][1..] == [];
      assert Select([f], files) == Pick(f, files) + [];
    } else {
      assert (a + [f])[1..] == a[1..] + [f];
      SelectAppend(a[1..], f, files);
    }
  }

  function DataBits(check: Mask): Mask { check * {LocalToRemote, RemoteToLocal} }

  function FileBits(check: Mask): Mask { check * {LocalToRemoteFiles, RemoteToLocalFiles} }

  // The three branches, and the fall-through that keeps nothing.
  function Filter(fs: seq<Format>, mask: Mask, check: Mask): seq<Format> {
    if check <= mask then fs
    else if mask * FileBits(check) != {} then Select(fs, true)
    else if mask * DataBits(check) != {} then Select(fs, false)
    else []
  }

  /** The writing position, which counts the formats selected so far, never passes the reading
      position. */
  lemma {:induction false} SelectShrinks(fs: seq<Format>, files: bool)
    ensures |Select(fs, files)| <= |fs|
  {
    if fs != [] {
      SelectShrinks(fs[1..], files);
    }
  }

  // The output is written in place behind the reading position.
  method SelectInto(fs: seq<Format>, out: array<Format>, files: bool) returns (wpos: nat)
    requires out.Length == |fs|
    modifies out
    ensures wpos <= |fs| && out[..wpos] == Select(fs, files)
  {
    wpos := 0;
    for x := 0 to |fs|
      invariant wpos <= x
      invariant out[..wpos] == Select(fs[..x], files)
    {
      SelectAppend(fs[..x], fs[x], files);
      assert fs[..x + 1] == fs[..x] + [fs[x]];
      if IsFileFormat(fs[x]) == files {
        out[wpos] := fs[x];
        wpos := wpos + 1;
      }
    }
    assert fs[..|fs|] == fs;
  }

  method FilterFormatList(fs: seq<Format>, mask: Mask, check: Mask) returns (r: seq<Format>)
    ensures r == Filter(fs, mask, check)
  {
    var out := new Format[|fs|](_ => Format(0, None));
    var wpos := 0;
    if check <= mask {
      for x := 0 to |fs|
        invariant wpos == x && out[..wpos] == fs[..x]
      {
        out[x] := fs[x];
        wpos := wpos + 1;
      }
    } else if mask * FileBits(check) != {} {
      wpos := SelectInto(fs, out, true);
    } else if mask * DataBits(check) != {} {
      wpos := SelectInto(fs, out, false);
    }
    r := out[..wpos];
  }

  // ---- the one rule behind the branches ------------------------------------------

  // The bit that lets a format cross, given the data bit and the file bit of a direction.
  function BitOf(f: Format, data: Direction, file: Direction): Direction {
    if IsFileFormat(f) then file else data
  }

  function Keep(fs: seq<Format>, mask: Mask, data: Direction, file: Direction): seq<Format> {
    if fs == [] then []
    else (if BitOf(fs[0], data, file) in mask then [fs[0]] else []) + Keep(fs[1..], mask, data, file)
  }

  ghost predicate OneDirection(data: Direction, file: Direction) {
    (data == LocalToRemote && file == LocalToRemoteFiles) || (data == RemoteToLocal && file == RemoteToLocalFiles)
  }

  lemma {:induction false} KeepCases(fs: seq<Format>, mask: Mask, data: Direction, file: Direction)
    ensures Keep(fs, mask, data, file) ==
      if data in mask && file in mask then fs
      else if file in mask then Select(fs, true)
      else if data in mask then Select(fs, false)
      else []
  {
    hide IsFileFormat;
    if fs != [] {
      KeepCases(fs[1..], mask, data, file);
    }
  }

  /** The three branches apply one rule: a format is kept, in its place, exactly when the bit
      of its class is set. */
  lemma FilterIsKeep(fs: seq<Format>, mask: Mask, data: Direction, file: Direction)
    requires OneDirection(data, file)
    ensures Filter(fs, mask, {data, file}) == Keep(fs, mask, data, file)
  {
    KeepCases(fs, mask, data, file);
    var check := {data, file};
    assert FileBits(check) == {file} && DataBits(check) == {data};
    assert file in mask ==> file in mask * {file};
    assert data in mask ==> data in mask * {data};
  }

  /** Everything kept has its bit, and nothing with its bit is dropped. */
  lemma {:induction false} KeepIsExact(fs: seq<Format>, mask: Mask, data: Direction, file: Direction)
    ensures forall f :: f in Keep(fs, mask, data, file) <==> f in fs && BitOf(f, data, file) in mask
    ensures Keep(Keep(fs, mask, data, file), mask, data, file) == Keep(fs, mask, data, file)
  {
    hide IsFileFormat;
    if fs != [] {
      KeepIsExact(fs[1..], mask, data, file);
      var rest := Keep(fs[1..], mask, data, file);
      assert ([fs[0]] + rest)[1..] == rest;
      assert [] + rest == rest;
      assert fs == [fs[0]] + fs[1..];
    }
  }

  /** The file-only and the data-only result share out the input between them. */
  lemma {:induction false} SelectSplits(fs: seq<Format>)
    ensures multiset(Select(fs, true)) + multiset(Select(fs, false)) == multiset(fs)
    ensures forall f :: f in Select(fs, true) ==> IsFileFormat(f)
    ensures forall f :: f in Select(fs, false) ==> !IsFileFormat(f)
  {
    hide IsFileFormat;
    if fs != [] {
      SelectSplits(fs[1..]);
      assert fs == [fs[0]] + fs[1..];
    }
  }

  // ---- choosing what to ask for ----------------------------------------------------

  const CF_UNICODETEXT: u32 := 13
  const CF_DIBV5: u32 := 17
  const CF_DIB: u32 := 8

  predicate Advertised(fs: seq<Format>, id: u32) { exists i | 0 <= i < |fs| :: fs[i].id == id }

  predicate IsNamedChoice(f: Format) {
    f.name == Some(PNG) || f.name == Some(FILE_GROUP_DESCRIPTOR)
  }

  lemma NamesSpelled()
    ensures FILE_GROUP_DESCRIPTOR ==
      [70, 105, 108, 101, 71, 114, 111, 117, 112, 68, 101, 115, 99, 114, 105, 112, 116, 111, 114, 87]
    ensures FILE_CONTENTS == [70, 105, 108, 101, 67, 111, 110, 116, 101, 110, 116, 115]
    ensures PNG == [80, 78, 71]
  {
  }

  /** The class of a format is decided by its name alone, letter for letter; the order in which
      formats are wanted by the ids 13, 17 and 8 and by two names. */
  lemma ClassesAndWishes(f: Format)
    ensures IsFileFormat(f) <==>
      f.name.Some? && (f.name.value == [70, 105, 108, 101, 67, 111, 110, 116, 101, 110, 116, 115] ||
      f.name.value == [70, 105, 108, 101, 71, 114, 111, 117, 112, 68, 101, 115, 99, 114, 105, 112, 116, 111, 114, 87])
    ensures Preference(f) ==
      if f.id == 13 then 0
      else if f.name == Some([80, 78, 71]) || (IsFileFormat(f) && |f.name.value| == 20) then 1
      else if f.id == 17 then 2 else if f.id == 8 then 3 else 4
  {
    NamesSpelled();
  }

  // The index of the first format with one of the two sought names, or the length.
  function FirstNamed(fs: seq<Format>): (n: nat)
    ensures n <= |fs| && (n < |fs| ==> IsNamedChoice(fs[n]))
    ensures forall i | 0 <= i < n :: !IsNamedChoice(fs[i])
  {
    if fs == [] || IsNamedChoice(fs[0]) then 0 else 1 + FirstNamed(fs[1..])
  }

  // The id to request, and the name remembered with it.
  function Choose(fs: seq<Format>): Option<Format> {
    if Advertised(fs, CF_UNICODETEXT) then Some(Format(CF_UNICODETEXT, None))
    else if FirstNamed(fs) < |fs| then Some(fs[FirstNamed(fs)])
    else if Advertised(fs, CF_DIBV5) then Some(Format(CF_DIBV5, None))
    else if Advertised(fs, CF_DIB) then Some(Format(CF_DIB, None))
    else None
  }

  // The table of remote formats, and the scan for a wanted name.
  method ChooseFormat(fs: seq<Format>) returns (choice: Option<Format>)
    ensures choice == Choose(fs)
  {
    var table: map<u32, Name> := map[];
    for i := 0 to |fs|
      invariant forall id :: id in table <==> Advertised(fs[..i], id)
    {
      table := table[fs[i].id := Text(fs[i])];
      assert fs[..i + 1] == fs[..i] + [fs[i]];
      forall id
        ensures Advertised(fs[..i + 1], id) <==> id == fs[i].id || Advertised(fs[..i], id)
      {
        assert fs[..i + 1][i] == fs[i];
        if Advertised(fs[..i], id) {
          var k :| 0 <= k < i && fs[..i][k].id == id;
          assert fs[..i + 1][k].id == id;
        }
      }
    }
    assert fs[..|fs|] == fs;
    if CF_UNICODETEXT in table {
      return Some(Format(CF_UNICODETEXT, None));
    }
    for i := 0 to |fs|
      invariant forall k | 0 <= k < i :: !IsNamedChoice(fs[k])
    {
      if IsNamedChoice(fs[i]) {
        return Some(fs[i]);
      }
    }
    if CF_DIBV5 in table {
      choice := Some(Format(CF_DIBV5, None));
    } else if CF_DIB in table {
      choice := Some(Format(CF_DIB, None));
    } else {
      choice := None;
    }
  }

  /** Only what was advertised is asked for; with file copying off, never the file list. */
  lemma ChoiceIsAdvertised(fs: seq<Format>, mask: Mask)
    requires Choose(Keep(fs, mask, RemoteToLocal, RemoteToLocalFiles)).Some?
    ensures var c := Choose(Keep(fs, mask, RemoteToLocal, RemoteToLocalFiles)).value;
      Advertised(fs, c.id) &&
      (c.name == Some(FILE_GROUP_DESCRIPTOR) ==> RemoteToLocalFiles in mask) &&
      (c.name == Some(PNG) ==> RemoteToLocal in mask)
  {
    var kept := Keep(fs, mask, RemoteToLocal, RemoteToLocalFiles);
    KeepIsExact(fs, mask, RemoteToLocal, RemoteToLocalFiles);
    var c := Choose(kept).value;
    var n := FirstNamed(kept);
    assert n < |kept| ==> kept[n] in kept;
    var k :| 0 <= k < |kept| && kept[k].id == c.id;
    assert kept[k] in kept;
    assert |PNG| == 3 && |FILE_GROUP_DESCRIPTOR| == 20 && |FILE_CONTENTS| == 12;
  }

  // How early the choice looks for a format: text, a sought name, then the two bitmaps.
  function Preference(f: Format): nat {
    if f.id == CF_UNICODETEXT then 0
    else if IsNamedChoice(f) then 1
    else if f.id == CF_DIBV5 then 2
    else if f.id == CF_DIB then 3
    else 4
  }

  ghost predicate IsChosen(fs: seq<Format>, i: nat, c: Format)
    requires i < |fs|
  {
    && fs[i].id == c.id
    && (forall k | 0 <= k < |fs| :: Preference(fs[i]) <= Preference(fs[k]))
    && (Preference(fs[i]) != 1 ==> c.name == None)
    && (Preference(fs[i]) == 1 ==> c == fs[i] && forall k | 0 <= k < i :: Preference(fs[k]) != 1)
  }

  /** Nothing is asked for exactly when nothing wanted is there; otherwise the most preferred
      format is, and of several with a sought name the first. */
  lemma ChoiceIsBest(fs: seq<Format>)
    ensures Choose(fs) == None <==> forall k | 0 <= k < |fs| :: Preference(fs[k]) == 4
    ensures Choose(fs).Some? ==> exists i | 0 <= i < |fs| :: IsChosen(fs, i, Choose(fs).value)
  {
    hide IsNamedChoice;
    var n := FirstNamed(fs);
    assert forall k | n < |fs| && k == n :: Preference(fs[k]) <= 1;
    if Advertised(fs, CF_UNICODETEXT) {
      var i :| 0 <= i < |fs| && fs[i].id == CF_UNICODETEXT;
      assert IsChosen(fs, i, Format(CF_UNICODETEXT, None));
    } else if n < |fs| {
      assert Preference(fs[n]) == 1 && IsChosen(fs, n, fs[n]);
    } else if Advertised(fs, CF_DIBV5) {
      var i :| 0 <= i < |fs| && fs[i].id == CF_DIBV5;
      assert IsChosen(fs, i, Format(CF_DIBV5, None));
    } else if Advertised(fs, CF_DIB) {
      var i :| 0 <= i < |fs| && fs[i].id == CF_DIB;
      assert IsChosen(fs, i, Format(CF_DIB, None));
    }
  }
}
