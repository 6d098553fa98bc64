/**
 Format lists read in the form they were not written in: a sender and a receiver
 that disagree on long or short names.
 */
module ListForms {
  import opened Wire
  import opened FormatList

  // The long reader seen one code unit at a time: two units of id, then a name up to its NUL.
  // The place is the number of id units read since the last record ended.
  type Place = n: nat | n <= 2

  function Scanned(at: Place, unit: u16): Place { if at == 2 && unit != 0 then 2 else (at + 1) % 3 }

  function Scan(at: Place, u: Name): Place
    decreases |u|
  {
    if u == [] then at else Scan(Scanned(at, u[0]), u[1..])
  }

  lemma {:induction false} ScanAppend(at: Place, u: Name, v: Name)
    ensures Scan(at, u + v) == Scan(Scan(at, u), v)
    decreases |u|
  {
    if u == [] {
      assert u + v == v;
    } else {
      assert (u + v)[1..] == u[1..] + v;
      ScanAppend(Scanned(at, u[0]), u[1..], v);
    }
  }

  lemma {:induction false} ScanZeros(at: Place, u: Name)
    requires forall i | 0 <= i < |u| :: u[i] == 0
    ensures Scan(at, u) == (at + |u|) % 3
    decreases |u|
  {
    if u != [] {
      ScanZeros(Scanned(at, 0), u[1..]);
    }
  }

  lemma {:induction false} ScanText(at: Place, u: Name)
    requires forall i | 0 <= i < |u| :: u[i] != 0
    ensures Scan(at, u) == Min(at + |u|, 2)
    decreases |u|
  {
    if u != [] {
      ScanText(Scanned(at, u[0]), u[1..]);
    }
  }

  lemma Units16Split(b: bytes, k: nat)
    requires 2 * k <= |b|
    ensures Units16(b) == Units16(b[..2 * k]) + Units16(b[2 * k..])
  {
    var u, v, w := Units16(b), Units16(b[..2 * k]), Units16(b[2 * k..]);
    forall i | 0 <= i < |u|
      ensures u[i] == (v + w)[i]
    {
      if i < k {
        assert b[2 * i..2 * i + 2] == b[..2 * k][2 * i..2 * i + 2];
      } else {
        assert b[2 * i..2 * i + 2] == b[2 * k..][2 * (i - k)..2 * (i - k) + 2];
      }
    }
  }

  // A name takes the scan to the unit behind its NUL.
  lemma ScanName(u: Name)
    ensures Scan(2, u) == if NulAt(u) < |u| then Scan(0, u[NulAt(u) + 1..]) else 2
  {
    var n := NulAt(u);
    assert u == u[..n] + u[n..];
    ScanAppend(2, u[..n], u[n..]);
    ScanText(2, u[..n]);
    if n < |u| {
      assert u[n..][1..] == u[n + 1..];
    }
  }

  // One long record takes the scan from a record's beginning to the next; a payload too short
  // for its record leaves the scan inside it.
  lemma ScanRecord(b: bytes)
    requires |b| >= 4
    ensures Scan(0, Units16(b)) == if LongRecordSize(b) <= |b| then Scan(0, Units16(b[LongRecordSize(b)..])) else 2
  {
    hide Units16, Scan;
    var n, field := LongNameLength(b), Units16(b[4..]);
    Units16Split(b, 2);
    ScanAppend(0, Units16(b[..4]), field);
    ScanTwo(Units16(b[..4]));
    ScanName(field);
    if LongRecordSize(b) <= |b| {
      Units16Split(b[4..], n + 1);
      assert b[4..][2 * (n + 1)..] == b[LongRecordSize(b)..];
      assert field[n + 1..] == Units16(b[LongRecordSize(b)..]);
    }
  }

  lemma ScanTwo(u: Name)
    requires |u| == 2
    ensures Scan(0, u) == 2
  {
    assert u[1..][1..] == [];
    assert Scan(1, u[1..]) == 2;
  }

  lemma {:induction false} CountIsScan(b: bytes)
    ensures CountLong(b).Some? <==> |b| % 2 == 0 && Scan(0, Units16(b)) == 0
    decreases |b|
  {
    hide Units16, LongRecordSize, Scan;
    if b == [] {
      assert Scan(0, Units16([])) == 0 by { NothingScanned(); }
    } else if |b| < 4 {
      TooShortToScan(b);
    } else {
      ScanRecord(b);
      if LongRecordSize(b) <= |b| {
        CountIsScan(b[LongRecordSize(b)..]);
        assert LongRecordSize(b) % 2 == 0 by { RecordIsEven(b); }
      }
    }
  }

  lemma NothingScanned()
    ensures Scan(0, Units16([])) == 0
  {
  }

  lemma TooShortToScan(b: bytes)
    requires 0 < |b| < 4
    ensures |b| % 2 == 0 ==> Scan(0, Units16(b)) == 1
  {
    if |b| == 2 {
      assert Units16(b)[1..] == [];
    }
  }

  lemma RecordIsEven(b: bytes)
    requires |b| >= 4
    ensures LongRecordSize(b) % 2 == 0
  {
  }

  /** The long reader accepts exactly the payloads of even length whose code units, scanned one
      at a time, end where a record ends. */
  lemma LongAcceptsScan(b: bytes)
    ensures DecodeList(b, true, false).Ok? <==> |b| % 2 == 0 && Scan(0, Units16(b)) == 0
  {
    hide Units16, Scan;
    CountIsScan(b);
    LongAccepts(b);
  }

  // How far the scan is moved by the record of a short name: the two halves of the id, the name,
  // and the NULs that fill the field.
  function Moved(at: Place, f: Format): Place {
    var n := |Kept(Text(f), false, false)|;
    (Min(Scanned(Scanned(at, f.id % 0x1_0000), f.id / 0x1_0000) + n, 2) + 16 - n) % 3
  }

  function MovedAll(at: Place, fs: seq<Format>): Place
    decreases |fs|
  {
    if fs == [] then at else MovedAll(Moved(at, fs[0]), fs[1..])
  }

  // The bytes a list of long names takes.
  function LongLength(fs: seq<Format>): nat {
    if fs == [] then 0 else 6 + 2 * |Text(fs[0])| + LongLength(fs[1..])
  }

  lemma {:induction false} LongLengthIs(fs: seq<Format>)
    ensures |EncodeList(fs, true, false)| == LongLength(fs)
  {
    if fs != [] {
      LongLengthIs(fs[1..]);
    }
  }

  lemma HalvesOf(x: u32)
    ensures x % 256 + 256 * (x / 0x100 % 256) == x % 0x1_0000
    ensures x / 0x1_0000 % 256 + 256 * (x / 0x100_0000 % 256) == x / 0x1_0000
  {
    assert x % 0x1_0000 == x - 0x1_0000 * (x / 0x1_0000);
  }

  lemma IdUnits(x: u32)
    ensures Units16(Le32(x)) == [x % 0x1_0000, x / 0x1_0000]
  {
    HalvesOf(x);
    var b := Le32(x);
    assert Units16(b)[0] == Get16(b[0..2]) && Units16(b)[1] == Get16(b[2..4]);
  }

  lemma ShortRecordMoves(at: Place, f: Format, rest: bytes)
    requires OneUnit(Text(f))
    ensures Scan(at, Units16(EncodeRecord(f, false, false) + rest)) == Scan(Moved(at, f), Units16(rest))
  {
    hide Scan, Units16, Le32;
    var kept := Kept(Text(f), false, false);
    var pad := Zeros(2 * (16 - |kept|));
    var id, name := Le32(f.id), Image16(kept);
    assert EncodeRecord(f, false, false) == id + (name + pad) by { ShortField(f); }
    var b := EncodeRecord(f, false, false) + rest;
    assert b == id + (name + (pad + rest));
    SplitUnits(id, name + (pad + rest));
    SplitUnits(name, pad + rest);
    SplitUnits(pad, rest);
    ScanAppend(at, Units16(id), Units16(name + (pad + rest)));
    ScanId(at, f.id);
    var q := Scan(at, Units16(id));
    ScanAppend(q, Units16(name), Units16(pad + rest));
    UnitsOfText(kept);
    ScanText(q, Units16(name));
    ScanAppend(Scan(q, Units16(name)), Units16(pad), Units16(rest));
    UnitsOfZeros(16 - |kept|);
    ScanZeros(Scan(q, Units16(name)), Units16(pad));
  }

  lemma ShortField(f: Format)
    ensures var kept := Kept(Text(f), false, false);
      EncodeRecord(f, false, false) == Le32(f.id) + (Image16(kept) + Zeros(2 * (16 - |kept|)))
  {
    var kept := Kept(Text(f), false, false);
    if kept == [] {
      assert Image16(kept) + Zeros(32) == Zeros(32);
    }
  }

  lemma SplitUnits(a: bytes, b: bytes)
    requires |a| % 2 == 0
    ensures Units16(a + b) == Units16(a) + Units16(b)
  {
    Units16Split(a + b, |a| / 2);
    assert (a + b)[..|a|] == a && (a + b)[|a|..] == b;
  }

  lemma ScanId(at: Place, id: u32)
    ensures Scan(at, Units16(Le32(id))) == Scanned(Scanned(at, id % 0x1_0000), id / 0x1_0000)
  {
    IdUnits(id);
    var u := Units16(Le32(id));
    assert u == [id % 0x1_0000, id / 0x1_0000];
    assert u[1..][1..] == [];
    assert Scan(at, u) == Scan(Scanned(at, u[0]), u[1..]);
  }

  lemma UnitsOfText(name: Name)
    requires OneUnit(name)
    ensures Units16(Image16(name)) == name
  {
    Units16OfImage(name, []);
    assert Image16(name) + [] == Image16(name);
  }

  lemma UnitsOfZeros(n: nat)
    ensures |Units16(Zeros(2 * n))| == n && forall i | 0 <= i < n :: Units16(Zeros(2 * n))[i] == 0
  {
  }

  lemma {:induction false} ShortListMoves(at: Place, fs: seq<Format>)
    requires Plain(fs)
    ensures Scan(at, Units16(EncodeList(fs, false, false))) == MovedAll(at, fs)
    ensures |EncodeList(fs, false, false)| == 36 * |fs|
    decreases |fs|
  {
    hide Scan, Units16, Moved, EncodeRecord;
    if fs == [] {
      assert Scan(at, Units16([])) == at by { NothingMoves(at); }
    } else {
      ShortListMoves(Moved(at, fs[0]), fs[1..]);
      ShortRecordMoves(at, fs[0], EncodeList(fs[1..], false, false));
      ShortRecordRoundTrip(fs[0], false, EncodeList(fs[1..], false, false));
    }
  }

  lemma NothingMoves(at: Place)
    ensures Scan(at, Units16([])) == at
  {
  }

  // Does a reader that expects one form accept a list written in that or the other?
  predicate Readable(fs: seq<Format>, sent: bool, expected: bool) {
    if sent == expected then true
    else if expected then MovedAll(0, fs) == 0
    else fs == [] || (LongLength(fs) >= 36 && LongLength(fs) % 36 < 4)
  }

  /** A list of plain names, written with long or short names, is accepted by a reader that
      expects long or short names exactly when the forms agree, or the lengths of the names and
      the halves of the ids happen to bring the reader to the end of a record. */
  lemma ReadableIsAccepted(fs: seq<Format>, sent: bool, expected: bool)
    requires Plain(fs)
    ensures DecodeList(EncodeList(fs, sent, false), expected, false).Ok? <==> Readable(fs, sent, expected)
  {
    hide DecodeList, EncodeList, Units16, Scan;
    var b := EncodeList(fs, sent, false);
    if sent == expected {
      if sent {
        LongRoundTrip(fs);
      } else {
        ShortRoundTrip(fs, false);
      }
    } else if expected {
      LongAcceptsScan(b);
      ShortListMoves(0, fs);
    } else {
      ShortAccepts(b, false);
      LongLengthIs(fs);
      NoBytesNoFormats(fs);
    }
  }

  lemma NoBytesNoFormats(fs: seq<Format>)
    ensures LongLength(fs) == 0 <==> fs == []
  {
  }
}
