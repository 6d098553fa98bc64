/**
 Do the two ends agree on the form of format names?  What the sender announced
 last, against the form it writes its next list in.
 */
module NameForms {
  import opened Wire
  import opened Pdu
  import opened FormatList
  import opened ListForms
  import opened FormatFilter
  import opened Capabilities
  import opened Serving
  import opened Session
  import opened Stack

  // The flag word of the last capability packet sent.
  function LastWord(outs: seq<Out>): Option<u32>
    decreases |outs|
  {
    if outs == [] then None
    else if outs[|outs| - 1].CapsOut? then Some(outs[|outs| - 1].flags)
    else LastWord(outs[..|outs| - 1])
  }

  lemma LastWordAppend(outs: seq<Out>, o: Out)
    ensures LastWord(outs + [o]) == if o.CapsOut? then Some(o.flags) else LastWord(outs)
  {
    assert (outs + [o])[..|outs|] == outs;
  }

  // ---- what the sender announces ---------------------------------------------------------

  lemma ReadyWord(s: State, outs: seq<Out>, mask: Mask)
    ensures var word := LastWord(outs + OnMonitorReady(s, mask).outs);
      word.Some? && FeaturesOf(word.value) == Both(WithDefaults(s).features, FeaturesOf(OFFERED))
  {
    hide FeaturesOf, Negotiate, Filter, SameOtherBits;
    var d := WithDefaults(s);
    NegotiateIsConjunction(d.features, OFFERED);
    var e := OnMonitorReady(s, mask);
    LastWordAppend(outs, e.outs[0]);
    assert e.outs[0].flags == Negotiate(d.features, OFFERED);
    assert outs + e.outs == (outs + [e.outs[0]]) + [e.outs[1]];
    LastWordAppend(outs + [e.outs[0]], e.outs[1]);
  }

  // Only a monitor ready makes the sender announce anything.
  lemma OthersAnnounceNothing(s: State, e: Event, outs: seq<Out>, mask: Mask)
    requires !ReadyArrives(e)
    ensures LastWord(outs + Step(s, e, mask).outs) == LastWord(outs)
  {
    hide Filter, Choose, DecodeList, ParseCaps, DecodeFileRequest, DecodeFileResponse, Answer, FeaturesOf, Negotiate;
    var sent := Step(s, e, mask).outs;
    assert |sent| <= 1;
    if sent == [] {
      assert outs + sent == outs;
    } else {
      assert sent == [sent[0]] && !sent[0].CapsOut?;
      LastWordAppend(outs, sent[0]);
    }
  }

  // All that went out since the handshake.
  function Sent(s: State, es: seq<Event>, mask: Mask): seq<Out> {
    var ready := OnMonitorReady(s, mask);
    ready.outs + Run(ready.state, es, mask).outs
  }

  /** Whatever happens after a handshake, the features announced last are those agreed on last. */
  lemma {:induction false} AnnouncedIsAgreed(s: State, es: seq<Event>, mask: Mask)
    ensures var word := LastWord(Sent(s, es, mask));
      word.Some? && FeaturesOf(word.value) == Fold(AfterHandshake(s), es).agreed
    decreases |es|
  {
    hide Step, FeaturesOf, OnMonitorReady, CapsArrive, ReadyArrives, InForce, Allowance, WordOf;
    var ready := OnMonitorReady(s, mask);
    if es == [] {
      assert ready.outs + [] == [] + ready.outs;
      ReadyWord(s, [], mask);
    } else {
      var before, e := es[..|es| - 1], es[|es| - 1];
      AnnouncedIsAgreed(s, before, mask);
      var u, sent := Run(ready.state, before, mask), Sent(s, before, mask);
      assert Sent(s, es, mask) == sent + Step(u.state, e, mask).outs;
      if ReadyArrives(e) {
        AgreesAgain(s, before, u.state, e, sent, mask);
      } else {
        OthersAnnounceNothing(u.state, e, sent, mask);
      }
    }
  }

  lemma AgreesAgain(s: State, es: seq<Event>, u: State, e: Event, sent: seq<Out>, mask: Mask)
    requires u == Run(OnMonitorReady(s, mask).state, es, mask).state && ReadyArrives(e)
    ensures var word := LastWord(sent + Step(u, e, mask).outs);
      word.Some? && FeaturesOf(word.value) == Advance(Fold(AfterHandshake(s), es), e).agreed
  {
    hide FeaturesOf, OnMonitorReady, InForce, Run, Fold;
    HandshakeSettles(s, mask);
    FeaturesAreFold(OnMonitorReady(s, mask).state, es, mask);
    ReadyWord(u, sent, mask);
    AllowanceIs(u, Fold(AfterHandshake(s), es));
    assert !CapsArrive(e);
  }

  lemma AllowanceIs(u: State, t: Standing)
    requires Stands(u, t)
    ensures WithDefaults(u).features == Allowance(t)
  {
    hide FeaturesOf;
  }

  // ---- what the receiver expects -----------------------------------------------------------

  lemma HearSetsFeatures(s: State, o: Out, mask: Mask)
    ensures Hear(s, o, mask).state.features == if o.CapsOut? then FeaturesOf(o.flags) else s.features
  {
    hide FeaturesOf, Filter, Choose, DecodeList, EncodeList, CarriedAll, Answer, ValidFileRequest;
  }

  /** A receiver expects the form announced by the last capability packet it handled. */
  lemma {:induction false} HeardFeatures(s: State, outs: seq<Out>, mask: Mask, stopping: bool)
    requires stopping ==> HearAll(s, outs, mask, true).status == RcOk
    ensures HearAll(s, outs, mask, stopping).state.features ==
      if LastWord(outs).Some? then FeaturesOf(LastWord(outs).value) else s.features
    decreases |outs|
  {
    hide Hear, FeaturesOf;
    if outs != [] {
      HeardFeatures(s, outs[..|outs| - 1], mask, stopping);
      HearSetsFeatures(HearAll(s, outs[..|outs| - 1], mask, stopping).state, outs[|outs| - 1], mask);
    }
  }

  // ---- the next list --------------------------------------------------------------------------

  /** After a handshake and any further events of the sender, let a receiver have handled all
      that was sent.  The sender's next list is in the form it has in force, the receiver expects
      the one agreed on, so the list is read as meant if and only if no flag word has come since
      the last monitor ready or that word names the agreed form; otherwise it is refused, and
      ends the receiver's thread, unless it happens to be readable in the other form. */
  lemma NextList(s: State, es: seq<Event>, mask: Mask, fs: seq<Format>, r: State, rmask: Mask, stopping: bool)
    requires stopping ==> HearAll(r, Sent(s, es, mask), rmask, true).status == RcOk
    ensures var t := Fold(AfterHandshake(s), es);
      var list := SendList(Run(OnMonitorReady(s, mask).state, es, mask).state, fs, mask);
      var v := HearAll(r, Sent(s, es, mask), rmask, stopping).state;
      list.outs != [] ==>
        var o := list.outs[0];
        list.outs == [o] && o.ListOut? && o.long == InForce(t).long && v.features.long == t.agreed.long &&
        (o.long == v.features.long <==> t.late.None? || FeaturesOf(t.late.value).long == t.agreed.long) &&
        (Refused(v, o, rmask) <==> !Readable(o.formats, InForce(t).long, t.agreed.long))
  {
    hide FeaturesOf, OnMonitorReady, Run, Fold, Filter, Readable, HearAll;
    AnnouncedIsAgreed(s, es, mask);
    HeardFeatures(r, Sent(s, es, mask), rmask, stopping);
    LateCapsExact(s, es, mask);
  }

  // ---- a run in which the forms part --------------------------------------------------------

  const ALL: Mask := {LocalToRemote, LocalToRemoteFiles, RemoteToLocal, RemoteToLocalFiles}

  const TEXT := Format(13, None)

  function Caps(flags: u32): Event { Arrives(Encode(Packet(CB_CLIP_CAPS, 0, EncodeCaps(2, flags)))) }

  const READY := Arrives(Encode(Packet(CB_MONITOR_READY, 0, [])))

  lemma CapsStep(s: State, flags: u32, mask: Mask)
    ensures Step(s, Caps(flags), mask) == Quietly(ApplyCaps(s, [flags]), RcOk)
  {
    hide EncodeCaps, ParseCaps, ApplyCaps;
    CapsRoundTrip(2, flags);
    ParseHeaderOfEncode(Packet(CB_CLIP_CAPS, 0, EncodeCaps(2, flags)));
  }

  lemma ReadyStep(s: State, mask: Mask)
    ensures Step(s, READY, mask) == OnMonitorReady(s, mask)
  {
    hide OnMonitorReady;
    ParseHeaderOfEncode(Packet(CB_MONITOR_READY, 0, []));
  }

  lemma RunOneMore(s: State, es: seq<Event>, e: Event, mask: Mask)
    ensures var before := Run(s, es, mask);
      var f := Step(before.state, e, mask);
      Run(s, es + [e], mask) == Effect(f.state, before.outs + f.outs, before.handed + f.handed, f.status)
  {
    assert (es + [e])[..|es|] == es;
  }

  // What the sender sends: capabilities without long names, the empty list, and a list with them.
  const PARTED: seq<Out> := [CapsOut(2, 12), ListOut([], false), ListOut([TEXT], true)]

  lemma WordsUsed()
    ensures FeaturesOf(12) == Features(false, true, true, false, false)
    ensures FeaturesOf(14) == Features(true, true, true, false, false)
    ensures Negotiate(Features(false, true, true, false, false), OFFERED) == 12
  {
  }

  /** Capabilities without long names, a monitor ready, late capabilities with them, and a copied
      text: the sender's three packets. */
  lemma PartedIsSent()
    ensures Run(START, [Caps(12), READY, Caps(14), LocalList([TEXT])], ALL).outs == PARTED
  {
    hide FeaturesOf, Negotiate, Caps, Step, Filter, Run;
    WordsUsed();
    CapsStep(START, 12, ALL);
    var s1 := ApplyCaps(START, [12]);
    ReadyStep(s1, ALL);
    FilterAll([]);
    var s2 := OnMonitorReady(s1, ALL).state;
    CapsStep(s2, 14, ALL);
    var s3 := ApplyCaps(s2, [14]);
    FilterAll([TEXT]);
    assert Run(START, [], ALL) == Quietly(START, RcOk) by { RunNone(START, ALL); }
    RunOneMore(START, [], Caps(12), ALL);
    RunOneMore(START, [Caps(12)], READY, ALL);
    RunOneMore(START, [Caps(12), READY], Caps(14), ALL);
    RunOneMore(START, [Caps(12), READY, Caps(14)], LocalList([TEXT]), ALL);
    assert [] + [Caps(12)] == [Caps(12)];
    assert [Caps(12)] + [READY] == [Caps(12), READY];
    assert [Caps(12), READY] + [Caps(14)] == [Caps(12), READY, Caps(14)];
    assert [Caps(12), READY, Caps(14)] + [LocalList([TEXT])] == [Caps(12), READY, Caps(14), LocalList([TEXT])];
    assert Step(s3, LocalList([TEXT]), ALL) == SendList(s3, [TEXT], ALL) by { ListStep(s3, [TEXT], ALL); }
  }

  lemma RunNone(s: State, mask: Mask)
    ensures Run(s, [], mask) == Quietly(s, RcOk)
  {
  }

  lemma ListStep(s: State, fs: seq<Format>, mask: Mask)
    ensures Step(s, LocalList(fs), mask) == SendList(s, fs, mask)
  {
  }

  lemma FilterAll(fs: seq<Format>)
    ensures Filter(fs, ALL, {LocalToRemote, LocalToRemoteFiles}) == fs
  {
  }

  /** A fresh receiver running the same code refuses the third packet: its handler thread ends. */
  lemma PartedEndsThread()
    ensures HearAll(START, PARTED[..2], ALL, true).status == RcOk
    ensures Receive(HearAll(START, PARTED[..2], ALL, true).state, Encode(PacketOf(PARTED[2])), ALL).status != RcOk
  {
    hide FeaturesOf, Receive, Encode, Filter, EncodeList;
    WordsUsed();
    hide Hear, HearAll;
    var heard := HearAll(START, PARTED[..2], ALL, true);
    var first := Quietly(ApplyCaps(START, [12]), RcOk);
    assert Hear(START, PARTED[0], ALL) == first by { HearCaps(START, 12, ALL); }
    assert HearAll(START, PARTED[..0], ALL, true) == Quietly(START, RcOk) by { HearNone(START, PARTED, ALL); }
    HearOneMore(START, PARTED, ALL, true, 0);
    HearOneMore(START, PARTED, ALL, true, 1);
    HearSetsFeatures(first.state, PARTED[1], ALL);
    assert Readable([], false, false);
    assert Plain([]);
    HearFails(first.state, PARTED[1], ALL);
    assert heard.state.features == FeaturesOf(12);
    assert LongLength([TEXT]) == 6 by { assert [TEXT][1..] == []; }
    assert Audible(PARTED[2]) by { TextAudible(); }
    ReceiveFails(heard.state, PARTED[2], ALL);
  }

  lemma HearCaps(s: State, flags: u32, mask: Mask)
    ensures Hear(s, CapsOut(2, flags), mask) == Quietly(ApplyCaps(s, [flags]), RcOk)
  {
  }

  lemma HearNone(s: State, outs: seq<Out>, mask: Mask)
    ensures HearAll(s, outs[..0], mask, true) == Quietly(s, RcOk)
  {
  }

  lemma TextAudible()
    ensures Audible(ListOut([TEXT], true))
  {
    LongLengthIs([TEXT]);
    assert [TEXT][1..] == [];
  }
}
