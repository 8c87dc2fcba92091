/** What the entries of a client's INFO packet come to: each kind built from the client's values and read
    back, and which of several entries of a kind counts. */
module ExtensionLaws {
  import opened Bytes
  import opened Extensions

  /** Username and password under id 2. */
  function PasswordEntry(u: seq<byte>, p: seq<byte>): Entry
    requires |u| < 256
  {
    Entry(2, [|u|] + u + p)
  }

  /** Username, the key chosen, its hash and perhaps a signature under id 3. */
  function CertificateEntry(u: seq<byte>, selected: byte, hash: seq<byte>, sig: seq<byte>): Entry
    requires |u| < 256 && |hash| == 32
  {
    Entry(3, [|u|] + u + [selected] + hash + sig)
  }

  lemma PasswordReads(x: Exts, u: seq<byte>, p: seq<byte>)
    requires |u| < 256
    ensures WellFormed(PasswordEntry(u, p))
    ensures Apply(x, PasswordEntry(u, p)) == x.(passwordUsername := u, passwordPassword := p)
  {
    var meta := PasswordEntry(u, p).meta;
    assert meta[0] == |u| && meta[1..1 + |u|] == u && meta[1 + |u|..] == p;
  }

  lemma CertificateReads(x: Exts, u: seq<byte>, selected: byte, hash: seq<byte>, sig: seq<byte>)
    requires |u| < 256 && |hash| == 32
    ensures WellFormed(CertificateEntry(u, selected, hash, sig))
    ensures Apply(x, CertificateEntry(u, selected, hash, sig))
         == x.(certificateUsername := u, certificateSelected := selected, certificatePubkeyHash := hash,
               certificateSig := if sig == [] then x.certificateSig else sig)
  {
    var meta := CertificateEntry(u, selected, hash, sig).meta;
    var pos := 1 + |u|;
    assert meta[0] == |u| && meta[1..pos] == u && meta[pos] == selected;
    assert meta[pos + 1..pos + 33] == hash && meta[pos + 33..] == sig;
  }

  lemma OthersRead(x: Exts, id: byte, meta: seq<byte>)
    requires id != 2 && id != 3
    ensures WellFormed(Entry(id, meta))
    ensures Apply(x, Entry(id, meta))
         == if id == 1 then x.(udp := true) else if id == 5 then x.(streamConfirm := true) else x
  {
  }

  /** Under id 2 the metadata accepted is exactly what some username and password encode to. */
  lemma PasswordAcceptedIff(meta: seq<byte>)
    ensures WellFormed(Entry(2, meta)) <==> exists u: seq<byte>, p: seq<byte> :: |u| < 256 && Entry(2, meta) == PasswordEntry(u, p)
  {
    if WellFormed(Entry(2, meta)) {
      var n: nat := meta[0];
      assert meta == [n] + meta[1..1 + n] + meta[1 + n..];
      assert Entry(2, meta) == PasswordEntry(meta[1..1 + n], meta[1 + n..]);
    }
    forall u: seq<byte>, p: seq<byte> | |u| < 256 && Entry(2, meta) == PasswordEntry(u, p)
      ensures WellFormed(Entry(2, meta))
    {
      PasswordReads(NO_EXTS, u, p);
    }
  }

  ghost predicate IsCertificate(meta: seq<byte>, u: seq<byte>, selected: byte, hash: seq<byte>, sig: seq<byte>)
  {
    |u| < 256 && |hash| == 32 && Entry(3, meta) == CertificateEntry(u, selected, hash, sig)
  }

  /** And under id 3 exactly what some certificate values encode to. */
  lemma CertificateAcceptedIff(meta: seq<byte>)
    ensures WellFormed(Entry(3, meta)) <==> exists u, selected, hash, sig :: IsCertificate(meta, u, selected, hash, sig)
  {
    if WellFormed(Entry(3, meta)) {
      var n: nat := meta[0];
      var pos: nat := 1 + n;
      assert meta == [n] + meta[1..pos] + [meta[pos]] + meta[pos + 1..pos + 33] + meta[pos + 33..];
      assert IsCertificate(meta, meta[1..pos], meta[pos], meta[pos + 1..pos + 33], meta[pos + 33..]);
    }
    forall u, selected, hash, sig | IsCertificate(meta, u, selected, hash, sig)
      ensures WellFormed(Entry(3, meta))
    {
      CertificateReads(NO_EXTS, u, selected, hash, sig);
    }
  }

  // ---------------------------------------------------------------- several entries

  ghost predicate AllWell(es: seq<Entry>) { forall e <- es :: WellFormed(e) }

  lemma {:induction false} FoldAppend(x: Exts, es: seq<Entry>, fs: seq<Entry>)
    requires AllWell(es) && AllWell(fs)
    ensures AllWell(es + fs) && Fold(x, es + fs) == Fold(Fold(x, es), fs)
    decreases |es|
  {
    if es == [] {
      assert es + fs == fs;
    } else {
      assert (es + fs)[0] == es[0] && (es + fs)[1..] == es[1..] + fs;
      FoldAppend(Apply(x, es[0]), es[1..], fs);
    }
  }

  /** An entry leaves the fields of the other kinds alone. */
  lemma ApplyFrame(x: Exts, e: Entry)
    requires WellFormed(e)
    ensures var y := Apply(x, e);
      && (e.id != 2 ==> y.passwordUsername == x.passwordUsername && y.passwordPassword == x.passwordPassword)
      && (e.id != 3 ==> y.certificateUsername == x.certificateUsername && y.certificateSelected == x.certificateSelected
                        && y.certificatePubkeyHash == x.certificatePubkeyHash && y.certificateSig == x.certificateSig)
      && y.udp == (x.udp || e.id == 1) && y.streamConfirm == (x.streamConfirm || e.id == 5)
  {
  }

  /** The flags are set by any entry of their id, the other fields kept where no entry has their id. */
  lemma {:induction false} FoldFields(x: Exts, es: seq<Entry>)
    requires AllWell(es)
    ensures var y := Fold(x, es);
      && (y.udp <==> x.udp || exists e <- es :: e.id == 1)
      && (y.streamConfirm <==> x.streamConfirm || exists e <- es :: e.id == 5)
      && ((forall e <- es :: e.id != 2) ==> y.passwordUsername == x.passwordUsername && y.passwordPassword == x.passwordPassword)
      && ((forall e <- es :: e.id != 3) ==>
            && y.certificateUsername == x.certificateUsername && y.certificateSelected == x.certificateSelected
            && y.certificatePubkeyHash == x.certificatePubkeyHash && y.certificateSig == x.certificateSig)
    decreases |es|
  {
    if es != [] {
      assert es == [es[0]] + es[1..];
      ApplyFrame(x, es[0]);
      FoldFields(Apply(x, es[0]), es[1..]);
    }
  }

  lemma AroundOne(before: seq<Entry>, e: Entry, after: seq<Entry>)
    requires AllWell(before) && AllWell(after) && WellFormed(e)
    ensures AllWell(before + [e] + after)
    ensures Fold(NO_EXTS, before + [e] + after) == Fold(Apply(Fold(NO_EXTS, before), e), after)
  {
    var x := Fold(NO_EXTS, before);
    FoldAppend(NO_EXTS, before, [e]);
    FoldAppend(NO_EXTS, before + [e], after);
    assert [e][1..] == [];
    assert Fold(Apply(x, e), []) == Apply(x, e);
  }

  /** The last username and password are the ones read, the flags those of any entry. */
  lemma LastPasswordWins(before: seq<Entry>, u: seq<byte>, p: seq<byte>, after: seq<Entry>)
    requires |u| < 256 && AllWell(before) && AllWell(after) && forall e <- after :: e.id != 2
    ensures var es := before + [PasswordEntry(u, p)] + after;
      AllWell(es) && Fold(NO_EXTS, es).passwordUsername == u && Fold(NO_EXTS, es).passwordPassword == p
  {
    var x := Fold(NO_EXTS, before);
    PasswordReads(x, u, p);
    AroundOne(before, PasswordEntry(u, p), after);
    FoldFields(Apply(x, PasswordEntry(u, p)), after);
  }

  /** The last certificate entry gives name, choice and hash, and the signature too if it has one. */
  lemma LastCertificateWins(before: seq<Entry>, u: seq<byte>, selected: byte, hash: seq<byte>, sig: seq<byte>, after: seq<Entry>)
    requires |u| < 256 && |hash| == 32 && AllWell(before) && AllWell(after) && forall e <- after :: e.id != 3
    ensures var es := before + [CertificateEntry(u, selected, hash, sig)] + after;
      AllWell(es) && var y := Fold(NO_EXTS, es);
      && y.certificateUsername == u && y.certificateSelected == selected && y.certificatePubkeyHash == hash
      && y.certificateSig == if sig == [] then Fold(NO_EXTS, before).certificateSig else sig
  {
    var x := Fold(NO_EXTS, before);
    CertificateReads(x, u, selected, hash, sig);
    AroundOne(before, CertificateEntry(u, selected, hash, sig), after);
    FoldFields(Apply(x, CertificateEntry(u, selected, hash, sig)), after);
  }

  /** From the client's values to bytes and back: the parser reads the last username and password, and a
      flag exactly when an entry sets it. */
  lemma ParsedPassword(before: seq<Entry>, u: seq<byte>, p: seq<byte>, after: seq<Entry>)
    requires |u| < 256 && AllWell(before) && AllWell(after) && forall e <- after :: e.id != 2
    requires var es := before + [PasswordEntry(u, p)] + after;
      (forall e <- es :: Fits(e)) && |EncodeEntries(es)| < 0x1_0000_0000
    ensures var es := before + [PasswordEntry(u, p)] + after; var res := ParseFrom(EncodeEntries(es), NO_EXTS);
      && res.Some? && res.value.passwordUsername == u && res.value.passwordPassword == p
      && (res.value.udp <==> exists e <- es :: e.id == 1)
      && (res.value.streamConfirm <==> exists e <- es :: e.id == 5)
  {
    var es := before + [PasswordEntry(u, p)] + after;
    LastPasswordWins(before, u, p, after);
    ParsesEntries(es, NO_EXTS);
    FoldFields(NO_EXTS, es);
  }

  /** Without an entry of id 2 no username is read. */
  lemma ParsedNoPassword(es: seq<Entry>)
    requires AllWell(es) && (forall e <- es :: e.id != 2 && Fits(e)) && |EncodeEntries(es)| < 0x1_0000_0000
    ensures var res := ParseFrom(EncodeEntries(es), NO_EXTS);
      && res.Some? && res.value.passwordUsername == [] && res.value.passwordPassword == []
      && (res.value.udp <==> exists e <- es :: e.id == 1)
      && (res.value.streamConfirm <==> exists e <- es :: e.id == 5)
  {
    ParsesEntries(es, NO_EXTS);
    FoldFields(NO_EXTS, es);
  }
}
