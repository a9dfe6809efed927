/** The scanner: walks every volume and every study of the archive and
    hands each study reference on, in archive order, until the consumer
    cancels.

    Go produces into an unbuffered channel from a goroutine. Here the
    channel is the sequence of references sent so far, and the context's
    `Done` channel is an oracle `cancel`: `cancel(n)` says whether, with `n`
    studies already sent, the pending send loses to cancellation. The
    channel is closed when the producing method returns. */
module Scanner {

  import opened Wrappers
  import opened FileSystem
  import opened Fsdb

  /** The callback `scanVolume` gives `ForEachStudy`: send the study unless
      the context is cancelled first, in which case report the context's
      error. */
  function SendStudy(cancel: nat -> bool): (seq<StudyRef>, StudyRef) -> (seq<StudyRef>, Option<Error>)
  {
    (out: seq<StudyRef>, r: StudyRef) => if cancel(|out|) then (out, Some(Cancelled)) else (out + [r], None)
  }

  /** The callback `scan` gives `ForEachVolume`: scan one volume. */
  function ScanVolumeFn(fs: FS, cancel: nat -> bool): (seq<StudyRef>, Volume) -> (seq<StudyRef>, Option<Error>)
  {
    (out: seq<StudyRef>, vol: Volume) => ForEachStudyOf(fs, vol, SendStudy(cancel), out)
  }

  // ---------------------------------------------------------------------
  // Reference definitions

  /** The references of the studies `names` of `v`. */
  function RefsOf(v: Volume, names: seq<string>): (rs: seq<StudyRef>)
    ensures |rs| == |names|
    decreases |names|
  {
    if names == [] then [] else [StudyRef(v, names[0])] + RefsOf(v, names[1..])
  }

  /** Every study of a volume, in listing order; a volume that cannot be
      listed has none. */
  function VolumeStudies(fs: FS, v: Volume): seq<StudyRef>
  {
    match StudiesOf(fs, v)
    case Err(_) => []
    case Ok(names) => RefsOf(v, names)
  }

  /** The studies of the volumes `names`, volume after volume. */
  function StudiesOfVolumes(fs: FS, d: Db, names: seq<string>): seq<StudyRef>
    decreases |names|
  {
    if names == [] then []
    else VolumeStudies(fs, Volume(d, names[0])) + StudiesOfVolumes(fs, d, names[1..])
  }

  /** Every study of the archive in scan order: the volumes in
      `VolumeNames` order, the studies of each in `Studies` order. */
  function AllStudies(fs: FS, d: Db): seq<StudyRef>
  {
    match VolumeNamesOf(fs, d)
    case Err(_) => []
    case Ok(names) => StudiesOfVolumes(fs, d, names)
  }

  /** What reaches the consumer of `rs` when the send with `k` studies
      already delivered is the first to be cancelled: the studies before
      it. */
  function Sent(rs: seq<StudyRef>, cancel: nat -> bool, k: nat): (out: seq<StudyRef>)
    ensures |out| <= |rs|
    decreases |rs|
  {
    if rs == [] || cancel(k) then [] else [rs[0]] + Sent(rs[1..], cancel, k + 1)
  }

  /** What is sent is a prefix of what there is to send. */
  lemma {:induction false} SentPrefix(rs: seq<StudyRef>, cancel: nat -> bool, k: nat)
    ensures IsPrefix(Sent(rs, cancel, k), rs)
    decreases |rs|
  {
    if rs != [] && !cancel(k) {
      SentPrefix(rs[1..], cancel, k + 1);
    }
  }

  /** `Sent` stops exactly at the first cancelled send: none of the sends it
      delivers was cancelled, and when it delivers less than everything the
      next send was. */
  lemma {:induction false} SentStopsAtCancel(rs: seq<StudyRef>, cancel: nat -> bool, k: nat)
    ensures forall j :: k <= j < k + |Sent(rs, cancel, k)| ==> !cancel(j)
    ensures |Sent(rs, cancel, k)| < |rs| ==> cancel(k + |Sent(rs, cancel, k)|)
    decreases |rs|
  {
    if rs != [] && !cancel(k) {
      SentStopsAtCancel(rs[1..], cancel, k + 1);
    }
  }

  /** Without any cancellation everything is sent. */
  lemma {:induction false} SentAll(rs: seq<StudyRef>, cancel: nat -> bool, k: nat)
    requires forall j :: k <= j < k + |rs| ==> !cancel(j)
    ensures Sent(rs, cancel, k) == rs
    decreases |rs|
  {
    if rs != [] {
      SentAll(rs[1..], cancel, k + 1);
    }
  }

  /** Sending a concatenation sends the first part and, only when all of it
      went through, goes on with the second. */
  lemma {:induction false} SentConcat(a: seq<StudyRef>, b: seq<StudyRef>, cancel: nat -> bool, k: nat)
    ensures Sent(a + b, cancel, k) ==
              if |Sent(a, cancel, k)| < |a| then Sent(a, cancel, k) else a + Sent(b, cancel, k + |a|)
    decreases |a|
  {
    if a == [] {
      assert a + b == b;
    } else if !cancel(k) {
      assert (a + b)[1..] == a[1..] + b;
      SentConcat(a[1..], b, cancel, k + 1);
    }
  }

  /** `s` is a prefix of `t`. */
  predicate IsPrefix(s: seq<StudyRef>, t: seq<StudyRef>)
  {
    |s| <= |t| && s == t[..|s|]
  }

  lemma PrefixTrans(r: seq<StudyRef>, s: seq<StudyRef>, t: seq<StudyRef>)
    requires IsPrefix(r, s) && IsPrefix(s, t)
    ensures IsPrefix(r, t)
  {
    assert t[..|s|][..|r|] == t[..|r|];
  }

  lemma PrefixAppend(out: seq<StudyRef>, s: seq<StudyRef>, t: seq<StudyRef>)
    requires IsPrefix(s, t)
    ensures IsPrefix(out + s, out + t)
  {
    assert (out + t)[..|out + s|] == out + t[..|s|];
  }

  lemma PrefixOfSelf(out: seq<StudyRef>, t: seq<StudyRef>)
    ensures IsPrefix(out, out + t)
  {
    assert (out + t)[..|out|] == out;
  }

  lemma AppendAssoc(x: seq<StudyRef>, y: seq<StudyRef>, z: seq<StudyRef>)
    ensures (x + y) + z == x + (y + z)
  {
  }

  /** When all of `a` is sent, sending `a + rest` goes on with `rest` from
      the send numbered `m`. */
  lemma SentWhole(a: seq<StudyRef>, rest: seq<StudyRef>, cancel: nat -> bool, k: nat, m: nat)
    requires Sent(a, cancel, k) == a && m == k + |a|
    ensures Sent(a + rest, cancel, k) == a + Sent(rest, cancel, m)
  {
    SentConcat(a, rest, cancel, k);
  }

  /** When part of `a` is held back, nothing of `rest` is sent. */
  lemma SentPartial(a: seq<StudyRef>, rest: seq<StudyRef>, cancel: nat -> bool, k: nat)
    requires Sent(a, cancel, k) != a
    ensures Sent(a + rest, cancel, k) == Sent(a, cancel, k)
  {
    SentConcat(a, rest, cancel, k);
    SentPrefix(a, cancel, k);
  }

  /** Sending `a` is a prefix of sending `a + rest`. */
  lemma SentConcatPrefix(a: seq<StudyRef>, rest: seq<StudyRef>, cancel: nat -> bool, k: nat)
    ensures IsPrefix(Sent(a, cancel, k), Sent(a + rest, cancel, k))
  {
    SentConcat(a, rest, cancel, k);
    if Sent(a, cancel, k) == a {
      SentWhole(a, rest, cancel, k, k + |a|);
      PrefixOfSelf(a, Sent(rest, cancel, k + |a|));
    } else {
      SentPartial(a, rest, cancel, k);
    }
  }

  /** Every name in `names` is a directory under `p`. */
  predicate AllOpen(fs: FS, p: string, names: seq<string>)
  {
    forall k :: 0 <= k < |names| ==> JoinPath(p, names[k]) in fs.dirs
  }

  lemma AllOpenTail(fs: FS, p: string, names: seq<string>)
    requires names != [] && AllOpen(fs, p, names)
    ensures JoinPath(p, names[0]) in fs.dirs && AllOpen(fs, p, names[1..])
  {
    forall k | 0 <= k < |names[1..]| ensures JoinPath(p, names[1..][k]) in fs.dirs {
      assert names[1..][k] == names[k + 1];
    }
  }

  // ---------------------------------------------------------------------
  // Scanning one volume

  /** One send: the study goes out unless the send is cancelled. */
  lemma SendStep(cancel: nat -> bool, out: seq<StudyRef>, r: StudyRef)
    ensures SendStudy(cancel)(out, r) ==
              if cancel(|out|) then (out, Some(Cancelled)) else (out + [r], None)
  {
  }

  /** Sending the references of `names` from the send numbered `k` sends
      the first one and goes on from the send numbered `m`, unless that
      first send is cancelled. */
  lemma RefsTail(v: Volume, names: seq<string>, cancel: nat -> bool, k: nat, m: nat)
    requires names != [] && m == k + 1
    ensures RefsOf(v, names) == [StudyRef(v, names[0])] + RefsOf(v, names[1..])
    ensures cancel(k) ==> Sent(RefsOf(v, names), cancel, k) == []
    ensures !cancel(k) ==> Sent(RefsOf(v, names), cancel, k)
                           == [StudyRef(v, names[0])] + Sent(RefsOf(v, names[1..]), cancel, m)
  {
    var rs := RefsOf(v, names);
    assert rs[1..] == RefsOf(v, names[1..]);
  }

  /** Visiting studies with `SendStudy` appends a prefix of what `Sent`
      delivers, and all of it (having sent everything) when the visit ends
      without error. */
  lemma {:induction false} SendVisit(fs: FS, v: Volume, names: seq<string>, cancel: nat -> bool,
                                     out: seq<StudyRef>)
    ensures var res := VisitStudies(fs, v, names, SendStudy(cancel), out);
            var sent := Sent(RefsOf(v, names), cancel, |out|);
            IsPrefix(res.0, out + sent)
            && (res.1.None? ==> res.0 == out + sent && sent == RefsOf(v, names))
    decreases |names|
  {
    var sent := Sent(RefsOf(v, names), cancel, |out|);
    if names == [] {
      assert out + sent == out;
    } else {
      var st := StudyRef(v, names[0]);
      var out' := out + [st];
      RefsTail(v, names, cancel, |out|, |out'|);
      if OpenStudyByName(fs, v, names[0]).Ok? && !cancel(|out|) {
        SendStep(cancel, out, st);
        SendVisit(fs, v, names[1..], cancel, out');
        AppendAssoc(out, [st], Sent(RefsOf(v, names[1..]), cancel, |out'|));
      } else {
        SendStep(cancel, out, st);
        PrefixOfSelf(out, sent);
      }
    }
  }

  /** When every study opens, the visit appends exactly what `Sent`
      delivers and fails only when a send was cancelled. */
  lemma {:induction false} SendVisitOpen(fs: FS, v: Volume, names: seq<string>, cancel: nat -> bool,
                                         out: seq<StudyRef>)
    requires AllOpen(fs, v.Path(), names)
    ensures var res := VisitStudies(fs, v, names, SendStudy(cancel), out);
            var sent := Sent(RefsOf(v, names), cancel, |out|);
            res.0 == out + sent && (res.1.None? <==> sent == RefsOf(v, names))
    decreases |names|
  {
    var sent := Sent(RefsOf(v, names), cancel, |out|);
    if names == [] {
      assert out + sent == out;
    } else {
      AllOpenTail(fs, v.Path(), names);
      var st := StudyRef(v, names[0]);
      var out' := out + [st];
      RefsTail(v, names, cancel, |out|, |out'|);
      SendStep(cancel, out, st);
      if !cancel(|out|) {
        SendVisitOpen(fs, v, names[1..], cancel, out');
        AppendAssoc(out, [st], Sent(RefsOf(v, names[1..]), cancel, |out'|));
      } else {
        assert out + sent == out;
      }
    }
  }

  /** In a consistent tree every study a listed volume names opens. */
  lemma StudiesOpen(fs: FS, v: Volume)
    requires Consistent(fs) && StudiesOf(fs, v).Ok?
    ensures AllOpen(fs, v.Path(), StudiesOf(fs, v).value)
  {
    var names := StudiesOf(fs, v).value;
    forall k | 0 <= k < |names| ensures JoinPath(v.Path(), names[k]) in fs.dirs {
      StudiesAreDirectories(fs, v, names[k]);
    }
  }

  /** Scanning one volume appends a prefix of what `Sent` delivers of the
      volume's studies, and all of it when the scan of the volume ends
      without error. */
  lemma ScanVolumeStep(fs: FS, v: Volume, cancel: nat -> bool, out: seq<StudyRef>)
    ensures var res := ScanVolumeFn(fs, cancel)(out, v);
            var sent := Sent(VolumeStudies(fs, v), cancel, |out|);
            IsPrefix(res.0, out + sent)
            && (res.1.None? ==> res.0 == out + sent && sent == VolumeStudies(fs, v))
  {
    if StudiesOf(fs, v).Ok? {
      SendVisit(fs, v, StudiesOf(fs, v).value, cancel, out);
    } else {
      PrefixOfSelf(out, []);
      assert out + [] == out;
    }
  }

  /** In a consistent tree, scanning one volume that can be listed appends
      exactly what `Sent` delivers of its studies, and fails only when a
      send was cancelled. */
  lemma ScanVolumeOpen(fs: FS, v: Volume, cancel: nat -> bool, out: seq<StudyRef>)
    requires Consistent(fs) && v.Path() in fs.dirs
    ensures var res := ScanVolumeFn(fs, cancel)(out, v);
            var sent := Sent(VolumeStudies(fs, v), cancel, |out|);
            res.0 == out + sent && (res.1.None? <==> sent == VolumeStudies(fs, v))
  {
    StudiesOpen(fs, v);
    SendVisitOpen(fs, v, StudiesOf(fs, v).value, cancel, out);
  }

  // ---------------------------------------------------------------------
  // Scanning every volume

  /** One step of the volume visit, for a volume that opens. */
  lemma ScanVolumesUnfold(fs: FS, d: Db, names: seq<string>, cancel: nat -> bool, out: seq<StudyRef>)
    requires names != [] && JoinPath(d.rootPath, names[0]) in fs.dirs
    ensures var inner := ScanVolumeFn(fs, cancel)(out, Volume(d, names[0]));
            VisitVolumes(fs, d, names, ScanVolumeFn(fs, cancel), out) ==
              if inner.1.Some? then inner else VisitVolumes(fs, d, names[1..], ScanVolumeFn(fs, cancel), inner.0)
  {
  }

  /** Visiting volumes with `ScanVolumeFn` appends a prefix of what `Sent`
      delivers of their studies. */
  lemma {:induction false} ScanVisit(fs: FS, d: Db, names: seq<string>, cancel: nat -> bool,
                                     out: seq<StudyRef>)
    ensures IsPrefix(VisitVolumes(fs, d, names, ScanVolumeFn(fs, cancel), out).0,
                     out + Sent(StudiesOfVolumes(fs, d, names), cancel, |out|))
    decreases |names|
  {
    var all := Sent(StudiesOfVolumes(fs, d, names), cancel, |out|);
    if names == [] || OpenVolumeByName(fs, d, names[0]).Err? {
      PrefixOfSelf(out, all);
    } else {
      var vol := Volume(d, names[0]);
      var a := VolumeStudies(fs, vol);
      var rest := StudiesOfVolumes(fs, d, names[1..]);
      assert StudiesOfVolumes(fs, d, names) == a + rest;
      ScanVolumesUnfold(fs, d, names, cancel, out);
      ScanVolumeStep(fs, vol, cancel, out);
      var inner := ScanVolumeFn(fs, cancel)(out, vol);
      if inner.1.None? {
        ScanVisit(fs, d, names[1..], cancel, inner.0);
        SentWhole(a, rest, cancel, |out|, |inner.0|);
        AppendAssoc(out, a, Sent(rest, cancel, |inner.0|));
      } else {
        SentConcatPrefix(a, rest, cancel, |out|);
        PrefixAppend(out, Sent(a, cancel, |out|), all);
        PrefixTrans(inner.0, out + Sent(a, cancel, |out|), out + all);
      }
    }
  }

  /** Sequence bookkeeping for one step of `ScanVisitOpen`: one volume sent
      what `Sent` delivers of it, and the rest was visited only if all of it
      went through. */
  lemma SentStitch(out: seq<StudyRef>, a: seq<StudyRef>, rest: seq<StudyRef>, cancel: nat -> bool,
                   mid: seq<StudyRef>, whole: bool, res: seq<StudyRef>)
    requires mid == out + Sent(a, cancel, |out|)
    requires whole <==> Sent(a, cancel, |out|) == a
    requires whole ==> res == mid + Sent(rest, cancel, |mid|)
    requires !whole ==> res == mid
    ensures res == out + Sent(a + rest, cancel, |out|)
  {
    if whole {
      SentWhole(a, rest, cancel, |out|, |mid|);
      AppendAssoc(out, a, Sent(rest, cancel, |mid|));
    } else {
      SentPartial(a, rest, cancel, |out|);
    }
  }

  /** In a consistent tree where every volume name opens, the visit
      appends exactly what `Sent` delivers. */
  lemma {:induction false} ScanVisitOpen(fs: FS, d: Db, names: seq<string>, cancel: nat -> bool,
                                         out: seq<StudyRef>)
    requires Consistent(fs) && AllOpen(fs, d.rootPath, names)
    ensures VisitVolumes(fs, d, names, ScanVolumeFn(fs, cancel), out).0
            == out + Sent(StudiesOfVolumes(fs, d, names), cancel, |out|)
    decreases |names|
  {
    if names == [] {
      assert out + Sent([], cancel, |out|) == out;
    } else {
      AllOpenTail(fs, d.rootPath, names);
      var vol := Volume(d, names[0]);
      var a := VolumeStudies(fs, vol);
      var rest := StudiesOfVolumes(fs, d, names[1..]);
      assert StudiesOfVolumes(fs, d, names) == a + rest;
      ScanVolumesUnfold(fs, d, names, cancel, out);
      ScanVolumeOpen(fs, vol, cancel, out);
      var inner := ScanVolumeFn(fs, cancel)(out, vol);
      if inner.1.None? {
        ScanVisitOpen(fs, d, names[1..], cancel, inner.0);
      }
      SentStitch(out, a, rest, cancel, inner.0, inner.1.None?,
                 VisitVolumes(fs, d, names, ScanVolumeFn(fs, cancel), out).0);
    }
  }

  /** In a consistent tree every listed volume opens. */
  lemma VolumesOpen(fs: FS, d: Db)
    requires Consistent(fs) && VolumeNamesOf(fs, d).Ok?
    ensures AllOpen(fs, d.rootPath, VolumeNamesOf(fs, d).value)
  {
    var names := VolumeNamesOf(fs, d).value;
    forall k | 0 <= k < |names| ensures JoinPath(d.rootPath, names[k]) in fs.dirs {
      DirNamesMembers(fs.dirs[d.rootPath], "VOL", names[k]);
    }
  }

  /** What `scan` sends. */
  function ScanOf(fs: FS, d: Db, cancel: nat -> bool): seq<StudyRef>
  {
    ForEachVolumeOf(fs, d, ScanVolumeFn(fs, cancel), []).0
  }

  /** Whatever the archive holds and whenever the consumer cancels, the
      scan sends a prefix of every study of the archive, in order. */
  lemma ScanIsPrefix(fs: FS, d: Db, cancel: nat -> bool)
    ensures IsPrefix(ScanOf(fs, d, cancel), AllStudies(fs, d))
  {
    if VolumeNamesOf(fs, d).Ok? {
      var all := AllStudies(fs, d);
      ScanVisit(fs, d, VolumeNamesOf(fs, d).value, cancel, []);
      assert [] + Sent(all, cancel, 0) == Sent(all, cancel, 0);
      SentPrefix(all, cancel, 0);
      PrefixTrans(ScanOf(fs, d, cancel), Sent(all, cancel, 0), all);
    }
  }

  /** In a consistent tree the scan sends exactly the studies before the
      first cancelled send. */
  lemma ScanUntilCancelled(fs: FS, d: Db, cancel: nat -> bool)
    requires Consistent(fs)
    ensures ScanOf(fs, d, cancel) == Sent(AllStudies(fs, d), cancel, 0)
  {
    if VolumeNamesOf(fs, d).Ok? {
      VolumesOpen(fs, d);
      ScanVisitOpen(fs, d, VolumeNamesOf(fs, d).value, cancel, []);
      assert [] + Sent(AllStudies(fs, d), cancel, 0) == Sent(AllStudies(fs, d), cancel, 0);
    }
  }

  /** Without cancellation a consistent tree is scanned completely. */
  lemma ScanComplete(fs: FS, d: Db, cancel: nat -> bool)
    requires Consistent(fs) && forall j :: !cancel(j)
    ensures ScanOf(fs, d, cancel) == AllStudies(fs, d)
  {
    ScanUntilCancelled(fs, d, cancel);
    SentAll(AllStudies(fs, d), cancel, 0);
  }

  // ---------------------------------------------------------------------
  // The scanner's methods

  /** `scanVolume`: sends each study of `vol` in turn; the error is the
      first failure of `ForEachStudy`, cancellation included. */
  method ScanVolumeInto(fs: FS, vol: Volume, cancel: nat -> bool, out0: seq<StudyRef>)
    returns (out: seq<StudyRef>, err: Option<Error>)
    ensures (out, err) == ScanVolumeFn(fs, cancel)(out0, vol)
  {
    out, err := ForEachStudy(fs, vol, SendStudy(cancel), out0);
  }

  /** `Scan` (with `scan`): runs `ForEachVolume` with `scanVolume` and
      discards its result, so it never reports an error; a failing archive
      or a cancellation only ends the sequence early. */
  method Scan(fs: FS, d: Db, cancel: nat -> bool) returns (out: seq<StudyRef>, err: Option<Error>)
    ensures err == None
    ensures out == ScanOf(fs, d, cancel)
  {
    var dropped;
    out, dropped := ForEachVolume(fs, d, ScanVolumeFn(fs, cancel), []);
    err := None;
  }

  /** `ScanVolume`: the studies of one volume; the error of `scanVolume`
      ends the sequence and is not reported. */
  method ScanVolume(fs: FS, vol: Volume, cancel: nat -> bool) returns (out: seq<StudyRef>, err: Option<Error>)
    ensures err == None
    ensures out == ScanVolumeFn(fs, cancel)([], vol).0
  {
    var dropped;
    out, dropped := ScanVolumeInto(fs, vol, cancel, []);
    err := None;
  }

  /** `ScanVolumeName`: a volume that does not open is reported at once and
      nothing is sent. */
  method ScanVolumeName(fs: FS, d: Db, name: string, cancel: nat -> bool)
    returns (out: seq<StudyRef>, err: Option<Error>)
    ensures OpenVolumeByName(fs, d, name).Err? ==>
              out == [] && err == Some(OpenVolumeByName(fs, d, name).error)
    ensures OpenVolumeByName(fs, d, name).Ok? ==>
              err == None && out == ScanVolumeFn(fs, cancel)([], Volume(d, name)).0
  {
    var vol := OpenVolumeByName(fs, d, name);
    if vol.Err? {
      return [], Some(vol.error);
    }
    out, err := ScanVolume(fs, vol.value, cancel);
  }

  /** `ScanVolumeID`: the same for the volume `VOL%05d`. */
  method ScanVolumeID(fs: FS, d: Db, idx: int, cancel: nat -> bool)
    returns (out: seq<StudyRef>, err: Option<Error>)
    ensures OpenVolumeByIdx(fs, d, idx).Err? ==>
              out == [] && err == Some(OpenVolumeByIdx(fs, d, idx).error)
    ensures OpenVolumeByIdx(fs, d, idx).Ok? ==>
              err == None && out == ScanVolumeFn(fs, cancel)([], Volume(d, VolumeName(idx))).0
  {
    var vol := OpenVolumeByIdx(fs, d, idx);
    if vol.Err? {
      return [], Some(vol.error);
    }
    out, err := ScanVolume(fs, vol.value, cancel);
  }

  /** A volume scan sends a prefix of the volume's studies, exactly those
      before the first cancelled send when the tree is consistent and the
      volume can be listed, so all of them without cancellation. */
  lemma ScanVolumeSends(fs: FS, vol: Volume, cancel: nat -> bool)
    ensures IsPrefix(ScanVolumeFn(fs, cancel)([], vol).0, VolumeStudies(fs, vol))
    ensures Consistent(fs) && StudiesOf(fs, vol).Ok? ==>
              ScanVolumeFn(fs, cancel)([], vol).0 == Sent(VolumeStudies(fs, vol), cancel, 0)
    ensures Consistent(fs) && StudiesOf(fs, vol).Ok? && (forall j :: !cancel(j)) ==>
              ScanVolumeFn(fs, cancel)([], vol).0 == VolumeStudies(fs, vol)
  {
    var all := VolumeStudies(fs, vol);
    ScanVolumeStep(fs, vol, cancel, []);
    assert [] + Sent(all, cancel, 0) == Sent(all, cancel, 0);
    SentPrefix(all, cancel, 0);
    PrefixTrans(ScanVolumeFn(fs, cancel)([], vol).0, Sent(all, cancel, 0), all);
    if Consistent(fs) && StudiesOf(fs, vol).Ok? {
      ScanVolumeOpen(fs, vol, cancel, []);
      if forall j :: !cancel(j) {
        SentAll(all, cancel, 0);
      }
    }
  }
}
