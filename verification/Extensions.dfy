/** The extension list of Wisp v2 INFO packets: entries of id, 32-bit little-endian length and metadata. */
module Extensions {
  import opened Bytes
  import opened FrameCodec
  import opened Wrappers

  const EXT_UDP: byte := 1
  const EXT_PASSWORD: byte := 2
  const EXT_CERTIFICATE: byte := 3
  const EXT_STREAM_CONFIRM: byte := 5

  datatype Exts = Exts(
    udp: bool,
    passwordUsername: seq<byte>,
    passwordPassword: seq<byte>,
    certificateUsername: seq<byte>,
    certificateSelected: byte,
    certificatePubkeyHash: seq<byte>,
    certificateSig: seq<byte>,
    streamConfirm: bool)

  const NO_EXTS: Exts := Exts(false, [], [], [], 0, seq(32, _ => 0), [], false)

  datatype Entry = Entry(id: byte, meta: seq<byte>)

  predicate Fits(e: Entry) { |e.meta| < 0x1_0000_0000 }

  /** addExtension. */
  function AddExtension(buf: seq<byte>, e: Entry): seq<byte> { buf + [e.id] + LeBytes(|e.meta|, 4) + e.meta }

  method AppendExtension(buf: seq<byte>, id: byte, meta: seq<byte>) returns (res: seq<byte>)
    ensures res == AddExtension(buf, Entry(id, meta))
  {
    var entry := new byte[5 + |meta|](_ => 0);
    entry[0] := id;
    entry[1], entry[2], entry[3], entry[4] := Low(|meta|), Low(|meta| / 0x100), Low(|meta| / 0x1_0000), Low(|meta| / 0x100_0000);
    LeFourBytes(|meta|);
    assert entry[..5] == [id] + LeBytes(|meta|, 4);
    if |meta| > 0 {
      CopyTo(entry, 5, meta);
    }
    assert entry[..] == entry[..5] + entry[5..];
    return buf + entry[..];
  }

  function EncodeEntry(e: Entry): seq<byte> { AddExtension([], e) }

  function EncodeEntries(es: seq<Entry>): seq<byte>
  {
    if es == [] then [] else EncodeEntry(es[0]) + EncodeEntries(es[1..])
  }

  // ---------------------------------------------------------------- what an entry means

  function NameLen(meta: seq<byte>): nat
    requires |meta| >= 1
  {
    meta[0]
  }

  /** The metadata the parser insists on for the ids it knows. */
  predicate WellFormed(e: Entry)
  {
    if e.id == EXT_PASSWORD then |e.meta| >= 1 && |e.meta| >= 1 + NameLen(e.meta)
    else if e.id == EXT_CERTIFICATE then |e.meta| >= 1 && |e.meta| >= 1 + NameLen(e.meta) + 1 + 32
    else true
  }

  /** A later entry overwrites what an earlier one of its kind set; an empty signature leaves the old one. */
  function Apply(x: Exts, e: Entry): Exts
    requires WellFormed(e)
  {
    if e.id == EXT_UDP then x.(udp := true)
    else if e.id == EXT_PASSWORD then
      x.(passwordUsername := e.meta[1..1 + NameLen(e.meta)], passwordPassword := e.meta[1 + NameLen(e.meta)..])
    else if e.id == EXT_CERTIFICATE then
      var pos := 1 + NameLen(e.meta);
      x.(certificateUsername := e.meta[1..pos],
         certificateSelected := e.meta[pos],
         certificatePubkeyHash := e.meta[pos + 1..pos + 33],
         certificateSig := if pos + 33 < |e.meta| then e.meta[pos + 33..] else x.certificateSig)
    else if e.id == EXT_STREAM_CONFIRM then x.(streamConfirm := true)
    else x
  }

  function Fold(x: Exts, es: seq<Entry>): Exts
    requires forall e <- es :: WellFormed(e)
    decreases |es|
  {
    if es == [] then x else Fold(Apply(x, es[0]), es[1..])
  }

  // ---------------------------------------------------------------- the parser

  /** The first entry of the data and what follows it; None when its length runs over the end. */
  function FirstEntry(data: seq<byte>): Option<(Entry, seq<byte>)>
    requires |data| >= 5
  {
    var n := FromLe(data[1..5]);
    if (|data| - 5) % 0x1_0000_0000 < n || |data| - 5 < n then None
    else Some((Entry(data[0], data[5..5 + n]), data[5 + n..]))
  }

  function ParseFrom(data: seq<byte>, x: Exts): Option<Exts>
    decreases |data|
  {
    if |data| < 5 then (if data == [] then Some(x) else None)
    else match FirstEntry(data)
      case None => None
      case Some((e, rest)) => if WellFormed(e) then ParseFrom(rest, Apply(x, e)) else None
  }

  /** The switch on the extension id. */
  method ReadEntry(before: Exts, extID: byte, meta: seq<byte>) returns (res: Option<Exts>)
    ensures res == if WellFormed(Entry(extID, meta)) then Some(Apply(before, Entry(extID, meta))) else None
  {
    var exts := before;
    if extID == EXT_UDP {
      exts := exts.(udp := true);
    } else if extID == EXT_PASSWORD {
      if |meta| < 1 {
        return None;
      }
      var usernameLen := NameLen(meta);
      if |meta| < 1 + usernameLen {
        return None;
      }
      exts := exts.(passwordUsername := meta[1..1 + usernameLen]);
      exts := exts.(passwordPassword := meta[1 + usernameLen..]);
    } else if extID == EXT_CERTIFICATE {
      if |meta| < 1 {
        return None;
      }
      var usernameLen := NameLen(meta);
      if |meta| < 1 + usernameLen + 1 + 32 {
        return None;
      }
      exts := exts.(certificateUsername := meta[1..1 + usernameLen]);
      var pos := 1 + usernameLen;
      exts := exts.(certificateSelected := meta[pos]);
      pos := pos + 1;
      exts := exts.(certificatePubkeyHash := meta[pos..pos + 32]);
      pos := pos + 32;
      if pos < |meta| {
        exts := exts.(certificateSig := meta[pos..]);
      }
    } else if extID == EXT_STREAM_CONFIRM {
      exts := exts.(streamConfirm := true);
    }
    return Some(exts);
  }

  /** parseClientInfo. */
  method ParseClientInfo(payload: seq<byte>) returns (res: Option<Exts>)
    ensures res == if |payload| < 2 then None else ParseFrom(payload[2..], NO_EXTS)
  {
    if |payload| < 2 {
      return None;
    }
    var exts := NO_EXTS;
    var data := payload[2..];
    while |data| >= 5
      invariant ParseFrom(data, exts) == ParseFrom(payload[2..], NO_EXTS)
      decreases |data|
    {
      var extID := data[0];
      var extLen := FromLe(data[1..5]);
      ghost var whole := data;
      data := data[5..];
      if |data| % 0x1_0000_0000 < extLen || |data| < extLen {
        return None;
      }
      var meta := data[..extLen];
      data := data[extLen..];
      assert meta == whole[5..5 + extLen] && data == whole[5 + extLen..];
      assert FirstEntry(whole) == Some((Entry(extID, meta), data));
      var next := ReadEntry(exts, extID, meta);
      if next.None? {
        return None;
      }
      exts := next.value;
    }
    if |data| != 0 {
      return None;
    }
    return Some(exts);
  }

  // ---------------------------------------------------------------- codec laws

  lemma FirstOfEncoded(e: Entry, rest: seq<byte>)
    requires Fits(e) && |e.meta| + |rest| < 0x1_0000_0000
    ensures |EncodeEntry(e) + rest| >= 5 && FirstEntry(EncodeEntry(e) + rest) == Some((e, rest))
  {
    var data := EncodeEntry(e) + rest;
    PowTable();
    FromLeBytes(|e.meta|, 4);
    assert data[1..5] == LeBytes(|e.meta|, 4);
    assert data[5..5 + |e.meta|] == e.meta && data[5 + |e.meta|..] == rest;
  }

  lemma EntryOfData(data: seq<byte>)
    requires |data| >= 5 && FirstEntry(data).Some?
    ensures var (e, rest) := FirstEntry(data).value; Fits(e) && data == EncodeEntry(e) + rest && |rest| < |data|
  {
    var (e, rest) := FirstEntry(data).value;
    PowTable();
    LeBytesFrom(data[1..5]);
    assert data == [data[0]] + data[1..5] + data[5..5 + |e.meta|] + rest;
  }

  /** The parser accepts every concatenation of well-formed entries and folds them left to right; one
      malformed known entry anywhere rejects the whole. */
  lemma {:induction false} ParsesEntries(es: seq<Entry>, x: Exts)
    requires (forall e <- es :: Fits(e)) && |EncodeEntries(es)| < 0x1_0000_0000
    ensures ParseFrom(EncodeEntries(es), x)
         == if forall e <- es :: WellFormed(e) then Some(Fold(x, es)) else None
    decreases |es|
  {
    if es != [] {
      var rest := EncodeEntries(es[1..]);
      assert es == [es[0]] + es[1..];
      assert |EncodeEntry(es[0])| == 5 + |es[0].meta|;
      FirstOfEncoded(es[0], rest);
      if WellFormed(es[0]) {
        ParsesEntries(es[1..], Apply(x, es[0]));
      }
    }
  }

  /** What it accepts is such a concatenation. */
  lemma {:induction false} AcceptedIsEntries(data: seq<byte>, x: Exts) returns (es: seq<Entry>)
    requires ParseFrom(data, x).Some?
    ensures (forall e <- es :: Fits(e) && WellFormed(e)) && EncodeEntries(es) == data
    decreases |data|
  {
    if data == [] {
      return [];
    }
    var (e, rest) := FirstEntry(data).value;
    EntryOfData(data);
    var more := AcceptedIsEntries(rest, Apply(x, e));
    es := [e] + more;
    assert es[1..] == more;
  }

  lemma NonEmptyEncoding(es: seq<Entry>)
    ensures es != [] <==> EncodeEntries(es) != []
  {
  }

  /** There is only one way to read a byte string as entries. */
  lemma {:induction false} EntriesUnique(es: seq<Entry>, fs: seq<Entry>)
    requires (forall e <- es :: Fits(e)) && (forall f <- fs :: Fits(f))
    requires EncodeEntries(es) == EncodeEntries(fs) && |EncodeEntries(es)| < 0x1_0000_0000
    ensures es == fs
    decreases |es|
  {
    if es == [] || fs == [] {
      NonEmptyEncoding(es);
      NonEmptyEncoding(fs);
    } else {
      FirstOfEncoded(es[0], EncodeEntries(es[1..]));
      FirstOfEncoded(fs[0], EncodeEntries(fs[1..]));
      EntriesUnique(es[1..], fs[1..]);
      assert es == [es[0]] + es[1..] && fs == [fs[0]] + fs[1..];
    }
  }

  ghost predicate EntriesOf(es: seq<Entry>, data: seq<byte>)
  {
    (forall e <- es :: Fits(e) && WellFormed(e)) && EncodeEntries(es) == data
  }

  /** parseClientInfo accepts exactly the payloads whose tail is a concatenation of well-formed entries,
      and answers with their left fold. */
  lemma ParseIffEntries(payload: seq<byte>)
    requires 2 <= |payload| < 0x1_0000_0000
    ensures ParseFrom(payload[2..], NO_EXTS).Some? <==> exists es: seq<Entry> :: EntriesOf(es, payload[2..])
    ensures forall es: seq<Entry> | EntriesOf(es, payload[2..]) :: ParseFrom(payload[2..], NO_EXTS) == Some(Fold(NO_EXTS, es))
  {
    if ParseFrom(payload[2..], NO_EXTS).Some? {
      var es := AcceptedIsEntries(payload[2..], NO_EXTS);
      assert EntriesOf(es, payload[2..]);
    }
    forall es: seq<Entry> | EntriesOf(es, payload[2..])
      ensures ParseFrom(payload[2..], NO_EXTS) == Some(Fold(NO_EXTS, es))
    {
      ParsesEntries(es, NO_EXTS);
    }
  }

  lemma CutAlone(e: Entry, k: nat, x: Exts)
    requires Fits(e) && 0 < k < |EncodeEntry(e)| < 0x1_0000_0000
    ensures ParseFrom(EncodeEntry(e)[..k], x) == None
  {
    var cut := EncodeEntry(e)[..k];
    if k >= 5 {
      PowTable();
      FromLeBytes(|e.meta|, 4);
      assert EncodeEntry(e)[1..5] == LeBytes(|e.meta|, 4);
      assert cut[1..5] == EncodeEntry(e)[1..5];
      assert FirstEntry(cut) == None;
    }
  }

  /** A cut strictly inside an entry is rejected, whatever whole entries come before it. */
  lemma {:induction false} CutEntryRejected(es: seq<Entry>, e: Entry, k: nat, x: Exts)
    requires (forall d <- es :: Fits(d)) && Fits(e) && 0 < k < |EncodeEntry(e)|
    requires |EncodeEntries(es)| + |EncodeEntry(e)| < 0x1_0000_0000
    ensures ParseFrom(EncodeEntries(es) + EncodeEntry(e)[..k], x) == None
    decreases |es|
  {
    var cut := EncodeEntry(e)[..k];
    if es == [] {
      assert EncodeEntries(es) + cut == cut;
      CutAlone(e, k, x);
    } else {
      var rest := EncodeEntries(es[1..]) + cut;
      assert EncodeEntries(es) + cut == EncodeEntry(es[0]) + rest;
      assert |EncodeEntry(es[0])| == 5 + |es[0].meta|;
      FirstOfEncoded(es[0], rest);
      if WellFormed(es[0]) {
        CutEntryRejected(es[1..], e, k, Apply(x, es[0]));
      }
    }
  }
}
