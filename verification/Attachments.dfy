/** The content-addressed attachment store: saving a conversation's attachments and putting them back. */
module Attachments {
  import opened Bytes

  datatype MediaType = Jpeg | Png | Gif | Webp | Pdf

  function Mime(m: MediaType): string {
    match m
    case Jpeg => "image/jpeg"
    case Png => "image/png"
    case Gif => "image/gif"
    case Webp => "image/webp"
    case Pdf => "application/pdf"
  }

  /** `MediaType::from_mime`, the exact inverse of `Mime`. */
  function FromMime(s: string): (r: Option<MediaType>)
    ensures forall m: MediaType :: r == Some(m) <==> s == Mime(m)
  {
    assert Mime(Jpeg)[6] == 'j' && Mime(Png)[6] == 'p' && Mime(Gif)[6] == 'g' && Mime(Webp)[6] == 'w' && Mime(Pdf)[0] == 'a';
    if s == "image/jpeg" then Some(Jpeg)
    else if s == "image/png" then Some(Png)
    else if s == "image/gif" then Some(Gif)
    else if s == "image/webp" then Some(Webp)
    else if s == "application/pdf" then Some(Pdf)
    else None
  }

  /** Lowercase hex, 64 digits: the only names a blob can have. */
  predicate IsBlobName(s: string) {
    |s| == 64 && forall i :: 0 <= i < |s| ==> '0' <= s[i] <= '9' || 'a' <= s[i] <= 'f'
  }

  type Digest = s: string | IsBlobName(s) witness seq(64, _ => '0')

  /** SHA-256 in hex, and the type the leading magic number gives. Both are parameters. */
  datatype World = World(digest: seq<byte> -> Digest, sniff: seq<byte> -> Option<MediaType>)

  datatype Attachment = Attachment(bytes: seq<byte>, media: MediaType, filename: string)

  /** A message, as far as its attachments go. */
  datatype Held = Held(text: Option<string>, files: seq<Attachment>)

  datatype AttachmentRef = AttachmentRef(filename: string, mediaType: string, len: nat, sha256: string)
  datatype Entry = Entry(message: nat, files: seq<AttachmentRef>)

  datatype LossReason = Missing | Corrupt | Unreadable | Invalid
  datatype Loss = Loss(filename: string, reason: LossReason)

  /** What one look at a path gives: the stat, then the read. The two may disagree. */
  datatype ReadOutcome = Contents(bytes: seq<byte>) | Vanished | ReadFailed
  datatype Probe = Absent | StatFailed | Seen(len: nat, read: ReadOutcome)

  /** What the read of reference `k` of entry `e` comes upon at a path: no two reads need agree. */
  type Disk = (nat, nat, string) -> Probe

  /** A store nothing else is changing. */
  function Steady(blobs: map<string, seq<byte>>): Disk {
    (e, k, name) => if name in blobs then Seen(|blobs[name]|, Contents(blobs[name])) else Absent
  }

  /** `Attachment::new` only accepts bytes that are what they claim to be. */
  predicate Usable(w: World, a: Attachment) { w.sniff(a.bytes) == Some(a.media) }

  predicate FilesUsable(w: World, files: seq<Attachment>) {
    forall j :: 0 <= j < |files| ==> Usable(w, files[j])
  }

  predicate AllUsable(w: World, ms: seq<Held>) { forall i :: 0 <= i < |ms| ==> FilesUsable(w, ms[i].files) }

  // ---- describing ----

  /** `AttachmentRef::of` */
  function RefOf(w: World, a: Attachment): AttachmentRef { AttachmentRef(a.filename, Mime(a.media), |a.bytes|, w.digest(a.bytes)) }

  function RefsOf(w: World, files: seq<Attachment>): seq<AttachmentRef> {
    seq(|files|, i requires 0 <= i < |files| => RefOf(w, files[i]))
  }

  function RefsUpTo(w: World, ms: seq<Held>, n: nat): seq<Entry>
    requires n <= |ms|
  {
    if n == 0 then []
    else RefsUpTo(w, ms, n - 1) + if ms[n - 1].files == [] then [] else [Entry(n - 1, RefsOf(w, ms[n - 1].files))]
  }

  /** `attachment_refs`: one entry per message that has any. */
  function AttachmentRefs(w: World, ms: seq<Held>): seq<Entry> { RefsUpTo(w, ms, |ms|) }

  // ---- writing ----

  function Put(blobs: map<string, seq<byte>>, name: string, bytes: seq<byte>): map<string, seq<byte>> {
    if name in blobs then blobs else blobs[name := bytes]
  }

  /** The blobs after writing a message's files under the names its references give. */
  function PutFiles(blobs: map<string, seq<byte>>, refs: seq<AttachmentRef>, files: seq<Attachment>, n: nat): map<string, seq<byte>>
    requires n <= |refs| && n <= |files|
  {
    if n == 0 then blobs else Put(PutFiles(blobs, refs, files, n - 1), refs[n - 1].sha256, files[n - 1].bytes)
  }

  function PutEntry(blobs: map<string, seq<byte>>, e: Entry, ms: seq<Held>): map<string, seq<byte>> {
    if e.message >= |ms| then blobs
    else
      var files := ms[e.message].files;
      PutFiles(blobs, e.files, files, if |e.files| < |files| then |e.files| else |files|)
  }

  function PutAll(blobs: map<string, seq<byte>>, refs: seq<Entry>, ms: seq<Held>): map<string, seq<byte>> {
    if refs == [] then blobs else PutEntry(PutAll(blobs, refs[..|refs| - 1], ms), refs[|refs| - 1], ms)
  }

  /** Blobs are only ever added. */
  predicate Grown(before: map<string, seq<byte>>, after: map<string, seq<byte>>) {
    forall name :: name in before ==> name in after && after[name] == before[name]
  }

  class BlobStore {
    var blobs: map<string, seq<byte>>

    constructor () ensures blobs == map[] { blobs := map[]; }

    method WriteFiles(refs: seq<AttachmentRef>, files: seq<Attachment>, writable: string -> bool) returns (ok: bool)
      modifies this
      ensures Grown(old(blobs), blobs)
      ensures ok ==> blobs == PutFiles(old(blobs), refs, files, if |refs| < |files| then |refs| else |files|)
      ensures !ok ==> exists i :: 0 <= i < |refs| && !writable(refs[i].sha256) && refs[i].sha256 !in blobs
    {
      var i := 0;
      while i < |refs| && i < |files|
        invariant 0 <= i <= |refs| && i <= |files|
        invariant Grown(old(blobs), blobs) && blobs == PutFiles(old(blobs), refs, files, i)
      {
        var name := refs[i].sha256;
        if name !in blobs {
          if !writable(name) { return false; }
          blobs := blobs[name := files[i].bytes];
        }
        i := i + 1;
      }
      ok := true;
    }

    /** `write_blobs`: a blob already there is not rewritten; the first failed write ends it. */
    method WriteBlobs(ms: seq<Held>, refs: seq<Entry>, writable: string -> bool) returns (ok: bool)
      modifies this
      ensures Grown(old(blobs), blobs)
      ensures ok ==> blobs == PutAll(old(blobs), refs, ms)
      ensures (forall name :: writable(name)) ==> ok
    {
      var i := 0;
      while i < |refs|
        invariant 0 <= i <= |refs|
        invariant Grown(old(blobs), blobs) && blobs == PutAll(old(blobs), refs[..i], ms)
      {
        assert refs[..i + 1][..i] == refs[..i];
        if refs[i].message < |ms| {
          ok := WriteFiles(refs[i].files, ms[refs[i].message].files, writable);
          if !ok { return; }
        }
        i := i + 1;
      }
      assert refs[..i] == refs;
      ok := true;
    }
  }

  // ---- reading back ----

  /** The reference names a known type and a possible blob, and the look found exactly the bytes it
      describes, of that type. */
  predicate Intact(w: World, probe: Probe, r: AttachmentRef, bytes: seq<byte>) {
    && FromMime(r.mediaType).Some? && IsBlobName(r.sha256)
    && probe == Seen(r.len, Contents(bytes))
    && |bytes| == r.len && w.digest(bytes) == r.sha256
    && w.sniff(bytes) == FromMime(r.mediaType)
  }

  /** `read_blob` */
  function ReadBlob(w: World, probe: Probe, r: AttachmentRef): (res: Result<Attachment, LossReason>)
    ensures res.Ok? ==> Intact(w, probe, r, res.value.bytes) && Usable(w, res.value) && RefOf(w, res.value) == r
    ensures forall bytes :: Intact(w, probe, r, bytes) ==> res == Ok(Attachment(bytes, FromMime(r.mediaType).value, r.filename))
    ensures res == Err(Missing) ==> probe.Absent? || (probe.Seen? && probe.read.Vanished?)
    ensures IsBlobName(r.sha256) && FromMime(r.mediaType).Some? && probe.Absent? ==> res == Err(Missing)
  {
    var media := FromMime(r.mediaType);
    if media.None? then Err(Invalid)
    else if !IsBlobName(r.sha256) then Err(Corrupt)
    else
      match probe
      case Absent => Err(Missing)
      case StatFailed => Err(Unreadable)
      case Seen(len, read) =>
        if len != r.len then Err(Corrupt)
        else
          match read
          case Vanished => Err(Missing)
          case ReadFailed => Err(Unreadable)
          case Contents(bytes) =>
            if |bytes| != r.len || w.digest(bytes) != r.sha256 then Err(Corrupt)
            else if w.sniff(bytes) != media then Err(Invalid)
            else Ok(Attachment(bytes, media.value, r.filename))
  }

  /** The bytes a read of this reference gets to check, if it gets that far. */
  function Delivered(probe: Probe, r: AttachmentRef): Option<seq<byte>> {
    if FromMime(r.mediaType).Some? && IsBlobName(r.sha256) && probe.Seen? && probe.len == r.len && probe.read.Contents?
    then Some(probe.read.bytes)
    else None
  }

  predicate Genuine(w: World, r: AttachmentRef, bytes: seq<byte>) { |bytes| == r.len && w.digest(bytes) == r.sha256 }

  /** What each reason means: invalid is a type unknown or not what the genuine bytes are; corrupt is a
      name no blob can have, a wrong length or a wrong digest; the other two are the disk's. */
  lemma LossReasons(w: World, probe: Probe, r: AttachmentRef)
    ensures var res, bytes := ReadBlob(w, probe, r), Delivered(probe, r);
            var readable := FromMime(r.mediaType).Some? && IsBlobName(r.sha256);
            && (res == Err(Invalid) <==> FromMime(r.mediaType).None?
                                         || (bytes.Some? && Genuine(w, r, bytes.value) && w.sniff(bytes.value) != FromMime(r.mediaType)))
            && (res == Err(Corrupt) <==> FromMime(r.mediaType).Some?
                                         && (!IsBlobName(r.sha256) || (probe.Seen? && probe.len != r.len)
                                             || (bytes.Some? && !Genuine(w, r, bytes.value))))
            && (res == Err(Unreadable) <==> readable && (probe.StatFailed? || probe == Seen(r.len, ReadFailed)))
            && (res == Err(Missing) <==> readable && (probe.Absent? || probe == Seen(r.len, Vanished)))
  {
    hide FromMime, IsBlobName;
  }

  /** Reference `k` of entry `e`, read. */
  function Read(w: World, disk: Disk, e: nat, k: nat, r: AttachmentRef): Result<Attachment, LossReason> {
    ReadBlob(w, disk(e, k, r.sha256), r)
  }

  function Restored(w: World, disk: Disk, e: nat, refs: seq<AttachmentRef>): seq<Attachment> {
    if refs == [] then []
    else
      var k := |refs| - 1;
      var res := Read(w, disk, e, k, refs[k]);
      Restored(w, disk, e, refs[..k]) + if res.Ok? then [res.value] else []
  }

  function Lost(w: World, disk: Disk, e: nat, refs: seq<AttachmentRef>): seq<Loss> {
    if refs == [] then []
    else
      var k := |refs| - 1;
      var res := Read(w, disk, e, k, refs[k]);
      Lost(w, disk, e, refs[..k]) + if res.Err? then [Loss(refs[k].filename, res.error)] else []
  }

  function ReasonText(r: LossReason): string {
    match r
    case Missing => "its stored copy is missing"
    case Corrupt => "its stored copy does not match the recorded checksum"
    case Unreadable => "its stored copy could not be read"
    case Invalid => "its stored copy is not a usable image or PDF"
  }

  /** One loss, as `Display` spells it. */
  function LossLine(l: Loss): string { l.filename + ": " + ReasonText(l.reason) + "\n" }

  function Note(losses: seq<Loss>): string {
    if losses == [] then "\n\n--- Attachments unavailable ---\n"
    else Note(losses[..|losses| - 1]) + LossLine(losses[|losses| - 1])
  }

  function TextOf(m: Held): string { if m.text.Some? then m.text.value else "" }

  /** A message once the references of entry `e` are resolved. */
  function ResolvedMessage(w: World, disk: Disk, e: nat, refs: seq<AttachmentRef>, m: Held): Held {
    var lost := Lost(w, disk, e, refs);
    Held(if lost == [] then m.text else Some(TextOf(m) + Note(lost)), m.files + Restored(w, disk, e, refs))
  }

  function ResolvedAll(w: World, disk: Disk, refs: seq<Entry>, ms: seq<Held>): (r: seq<Held>)
    ensures |r| == |ms|
  {
    if refs == [] then ms
    else
      var e := |refs| - 1;
      var prev, i := ResolvedAll(w, disk, refs[..e], ms), refs[e].message;
      if i < |ms| then prev[i := ResolvedMessage(w, disk, e, refs[e].files, prev[i])] else prev
  }

  function LostAll(w: World, disk: Disk, refs: seq<Entry>, n: nat): seq<Loss> {
    if refs == [] then []
    else
      var e := |refs| - 1;
      LostAll(w, disk, refs[..e], n) + if refs[e].message < n then Lost(w, disk, e, refs[e].files) else []
  }

  lemma NextRef(w: World, disk: Disk, e: nat, refs: seq<AttachmentRef>, i: nat)
    requires i < |refs|
    ensures var res, r := Read(w, disk, e, i, refs[i]), refs[i];
            && Restored(w, disk, e, refs[..i + 1]) == Restored(w, disk, e, refs[..i]) + (if res.Ok? then [res.value] else [])
            && Lost(w, disk, e, refs[..i + 1]) == Lost(w, disk, e, refs[..i]) + (if res.Err? then [Loss(r.filename, res.error)] else [])
  {
    hide ReadBlob, IsBlobName;
    assert refs[..i + 1][..i] == refs[..i];
  }

  lemma NothingYet(w: World, disk: Disk, e: nat)
    ensures Restored(w, disk, e, []) == [] && Lost(w, disk, e, []) == []
    ensures Note([]) == "\n\n--- Attachments unavailable ---\n"
  {
  }

  lemma NextLine(losses: seq<Loss>, l: Loss)
    ensures Note(losses + [l]) == Note(losses) + LossLine(l)
  {
    assert (losses + [l])[..|losses|] == losses;
  }

  /** One message's references: its new attachments, and what could not come back. */
  method ResolveFiles(w: World, disk: Disk, e: nat, refs: seq<AttachmentRef>, files: seq<Attachment>)
    returns (files': seq<Attachment>, lost: seq<Loss>, note: string)
    ensures files' == files + Restored(w, disk, e, refs) && lost == Lost(w, disk, e, refs)
    ensures note == Note(lost)
  {
    hide *;
    NothingYet(w, disk, e);
    files', lost, note := files, [], "\n\n--- Attachments unavailable ---\n";
    assert refs[..0] == [];
    var i := 0;
    while i < |refs|
      invariant 0 <= i <= |refs|
      invariant files' == files + Restored(w, disk, e, refs[..i]) && lost == Lost(w, disk, e, refs[..i]) && note == Note(lost)
    {
      NextRef(w, disk, e, refs, i);
      match Read(w, disk, e, i, refs[i]) {
        case Ok(a) => files' := files' + [a];
        case Err(reason) =>
          NextLine(lost, Loss(refs[i].filename, reason));
          lost := lost + [Loss(refs[i].filename, reason)];
          note := note + LossLine(Loss(refs[i].filename, reason));
      }
      i := i + 1;
    }
    assert refs[..i] == refs;
  }

  lemma NextEntry(w: World, disk: Disk, refs: seq<Entry>, ms: seq<Held>, i: nat)
    requires i < |refs|
    ensures var prev, at := ResolvedAll(w, disk, refs[..i], ms), refs[i].message;
            ResolvedAll(w, disk, refs[..i + 1], ms)
            == if at < |ms| then prev[at := ResolvedMessage(w, disk, i, refs[i].files, prev[at])] else prev
    ensures LostAll(w, disk, refs[..i + 1], |ms|)
         == LostAll(w, disk, refs[..i], |ms|) + if refs[i].message < |ms| then Lost(w, disk, i, refs[i].files) else []
  {
    hide Lost, ResolvedMessage;
    assert refs[..i + 1][..i] == refs[..i];
  }

  lemma ResolvedMessageIs(w: World, disk: Disk, e: nat, refs: seq<AttachmentRef>, m: Held)
    ensures var lost := Lost(w, disk, e, refs);
            ResolvedMessage(w, disk, e, refs, m)
            == Held(if lost == [] then m.text else Some(TextOf(m) + Note(lost)), m.files + Restored(w, disk, e, refs))
  {
  }

  lemma NothingResolved(w: World, disk: Disk, ms: seq<Held>)
    ensures ResolvedAll(w, disk, [], ms) == ms && LostAll(w, disk, [], |ms|) == []
  {
  }

  /** `resolve_attachments`, in place on the resumed messages. */
  method ResolveAttachments(w: World, disk: Disk, refs: seq<Entry>, ms: array<Held>) returns (losses: seq<Loss>)
    modifies ms
    ensures ms[..] == ResolvedAll(w, disk, refs, old(ms[..]))
    ensures losses == LostAll(w, disk, refs, ms.Length)
  {
    hide *;
    ghost var was := ms[..];
    NothingResolved(w, disk, was);
    losses := [];
    assert refs[..0] == [];
    var i := 0;
    while i < |refs|
      invariant 0 <= i <= |refs|
      invariant ms[..] == ResolvedAll(w, disk, refs[..i], was)
      invariant losses == LostAll(w, disk, refs[..i], |was|)
    {
      NextEntry(w, disk, refs, was, i);
      var entry := refs[i];
      if entry.message < ms.Length {
        var m := ms[entry.message];
        assert m == ms[..][entry.message];
        ResolvedMessageIs(w, disk, i, entry.files, m);
        var files, lost, note := ResolveFiles(w, disk, i, entry.files, m.files);
        losses := losses + lost;
        ms[entry.message] := Held(if lost == [] then m.text else Some(TextOf(m) + note), files);
      }
      i := i + 1;
    }
    assert refs[..i] == refs;
  }

  // ---- save and resume are inverse ----

  predicate NoCollision(w: World, inPlay: set<seq<byte>>) {
    forall x, y :: x in inPlay && y in inPlay && w.digest(x) == w.digest(y) ==> x == y
  }

  /** Every blob is one of the byte strings in play, under its own digest. */
  predicate Honest(w: World, blobs: map<string, seq<byte>>, inPlay: set<seq<byte>>) {
    forall name :: name in blobs ==> blobs[name] in inPlay && w.digest(blobs[name]) == name
  }

  /** Where the store has a blob under the digest of bytes in play, it holds those bytes. */
  predicate Agrees(w: World, blobs: map<string, seq<byte>>, inPlay: set<seq<byte>>) {
    forall x :: x in inPlay && w.digest(x) in blobs ==> blobs[w.digest(x)] == x
  }

  lemma HonestAgrees(w: World, blobs: map<string, seq<byte>>, inPlay: set<seq<byte>>)
    requires NoCollision(w, inPlay) && Honest(w, blobs, inPlay)
    ensures Agrees(w, blobs, inPlay)
  {
    hide IsBlobName;
  }

  predicate InPlay(ms: seq<Held>, inPlay: set<seq<byte>>) {
    forall i, j :: 0 <= i < |ms| && 0 <= j < |ms[i].files| ==> ms[i].files[j].bytes in inPlay
  }

  /** The store has this attachment's bytes under its digest. */
  predicate Kept(w: World, blobs: map<string, seq<byte>>, a: Attachment) {
    w.digest(a.bytes) in blobs && blobs[w.digest(a.bytes)] == a.bytes
  }

  predicate FilesKept(w: World, blobs: map<string, seq<byte>>, files: seq<Attachment>) {
    forall j :: 0 <= j < |files| ==> Kept(w, blobs, files[j])
  }

  predicate HistoryKept(w: World, blobs: map<string, seq<byte>>, ms: seq<Held>, n: nat)
    requires n <= |ms|
  {
    forall i :: 0 <= i < n ==> FilesKept(w, blobs, ms[i].files)
  }

  lemma PutKeeps(w: World, blobs: map<string, seq<byte>>, a: Attachment, inPlay: set<seq<byte>>)
    requires NoCollision(w, inPlay) && Agrees(w, blobs, inPlay) && a.bytes in inPlay
    ensures var after := Put(blobs, w.digest(a.bytes), a.bytes);
            && Agrees(w, after, inPlay) && Grown(blobs, after) && Kept(w, after, a)
            && (Honest(w, blobs, inPlay) ==> Honest(w, after, inPlay))
  {
    hide IsBlobName;
  }

  lemma OneMoreFile(w: World, before: map<string, seq<byte>>, after: map<string, seq<byte>>, files: seq<Attachment>)
    requires files != [] && FilesKept(w, before, files[..|files| - 1]) && Grown(before, after) && Kept(w, after, files[|files| - 1])
    ensures FilesKept(w, after, files)
  {
    hide IsBlobName;
    forall j | 0 <= j < |files| - 1
      ensures Kept(w, after, files[j])
    {
      assert files[..|files| - 1][j] == files[j];
    }
  }

  lemma OneMoreMessage(w: World, before: map<string, seq<byte>>, after: map<string, seq<byte>>, ms: seq<Held>, n: nat)
    requires 0 < n <= |ms| && HistoryKept(w, before, ms, n - 1) && Grown(before, after) && FilesKept(w, after, ms[n - 1].files)
    ensures HistoryKept(w, after, ms, n)
  {
    hide IsBlobName;
  }

  lemma GrownTransitive(a: map<string, seq<byte>>, b: map<string, seq<byte>>, c: map<string, seq<byte>>)
    requires Grown(a, b) && Grown(b, c)
    ensures Grown(a, c)
  {
  }

  lemma PutFilesPrefix(blobs: map<string, seq<byte>>, refs: seq<AttachmentRef>, files: seq<Attachment>, n: nat, k: nat)
    requires k <= n <= |refs| && n <= |files|
    ensures PutFiles(blobs, refs[..n], files[..n], k) == PutFiles(blobs, refs, files, k)
  {
  }

  /** Writing all of a message's files is writing all but the last, then the last. */
  lemma PutFilesStep(w: World, blobs: map<string, seq<byte>>, files: seq<Attachment>)
    ensures |RefsOf(w, files)| == |files|
    ensures files == [] ==> PutFiles(blobs, RefsOf(w, files), files, |files|) == blobs && Grown(blobs, blobs)
    ensures files != [] ==>
              var front, last := files[..|files| - 1], files[|files| - 1];
              && |RefsOf(w, front)| == |front|
              && PutFiles(blobs, RefsOf(w, files), files, |files|)
                 == Put(PutFiles(blobs, RefsOf(w, front), front, |front|), w.digest(last.bytes), last.bytes)
  {
    if files != [] {
      var n := |files| - 1;
      PutFilesPrefix(blobs, RefsOf(w, files), files, n, n);
      assert RefsOf(w, files)[..n] == RefsOf(w, files[..n]);
    }
  }

  lemma {:induction false} PutFilesKeeps(w: World, blobs: map<string, seq<byte>>, files: seq<Attachment>, inPlay: set<seq<byte>>)
    requires NoCollision(w, inPlay) && Agrees(w, blobs, inPlay)
    requires forall j :: 0 <= j < |files| ==> files[j].bytes in inPlay
    ensures |RefsOf(w, files)| == |files|
    ensures var after := PutFiles(blobs, RefsOf(w, files), files, |files|);
            && Agrees(w, after, inPlay) && Grown(blobs, after) && FilesKept(w, after, files)
            && (Honest(w, blobs, inPlay) ==> Honest(w, after, inPlay))
  {
    PutFilesStep(w, blobs, files);
    if files != [] {
      hide *;
      var n := |files| - 1;
      PutFilesKeeps(w, blobs, files[..n], inPlay);
      var prev := PutFiles(blobs, RefsOf(w, files[..n]), files[..n], n);
      var after := PutFiles(blobs, RefsOf(w, files), files, |files|);
      PutKeeps(w, prev, files[n], inPlay);
      GrownTransitive(blobs, prev, after);
      OneMoreFile(w, prev, after, files);
    }
  }

  lemma FilesInPlay(ms: seq<Held>, i: nat, inPlay: set<seq<byte>>)
    requires i < |ms| && InPlay(ms, inPlay)
    ensures forall j :: 0 <= j < |ms[i].files| ==> ms[i].files[j].bytes in inPlay
  {
  }

  lemma RefsUpToStep(w: World, ms: seq<Held>, n: nat)
    requires 0 < n <= |ms|
    ensures var prev, files, refs := RefsUpTo(w, ms, n - 1), ms[n - 1].files, RefsUpTo(w, ms, n);
            && (files == [] ==> refs == prev)
            && (files != [] ==> refs != [] && refs[..|refs| - 1] == prev && refs[|refs| - 1] == Entry(n - 1, RefsOf(w, files)))
  {
    hide IsBlobName, RefsOf;
  }

  lemma PutAllStep(w: World, blobs: map<string, seq<byte>>, ms: seq<Held>, n: nat)
    requires n <= |ms|
    ensures n == 0 ==> PutAll(blobs, RefsUpTo(w, ms, n), ms) == blobs && Grown(blobs, blobs)
    ensures n > 0 ==> |RefsOf(w, ms[n - 1].files)| == |ms[n - 1].files|
    ensures n > 0 ==>
              PutAll(blobs, RefsUpTo(w, ms, n), ms)
              == PutFiles(PutAll(blobs, RefsUpTo(w, ms, n - 1), ms), RefsOf(w, ms[n - 1].files), ms[n - 1].files, |ms[n - 1].files|)
  {
    if n > 0 {
      RefsUpToStep(w, ms, n);
      var files := ms[n - 1].files;
      assert |RefsOf(w, files)| == |files|;
      hide IsBlobName, RefsUpTo, RefsOf;
      if files == [] {
        var before := PutAll(blobs, RefsUpTo(w, ms, n - 1), ms);
        assert PutFiles(before, RefsOf(w, files), files, 0) == PutAll(blobs, RefsUpTo(w, ms, n), ms);
      }
    }
  }

  lemma NothingKept(w: World, blobs: map<string, seq<byte>>, ms: seq<Held>)
    ensures HistoryKept(w, blobs, ms, 0)
  {
  }

  lemma {:induction false} PutAllKeeps(w: World, blobs: map<string, seq<byte>>, ms: seq<Held>, n: nat, inPlay: set<seq<byte>>)
    requires n <= |ms| && NoCollision(w, inPlay) && Agrees(w, blobs, inPlay) && InPlay(ms, inPlay)
    ensures var after := PutAll(blobs, RefsUpTo(w, ms, n), ms);
            && Agrees(w, after, inPlay) && Grown(blobs, after) && HistoryKept(w, after, ms, n)
            && (Honest(w, blobs, inPlay) ==> Honest(w, after, inPlay))
  {
    hide *;
    PutAllStep(w, blobs, ms, n);
    NothingKept(w, PutAll(blobs, RefsUpTo(w, ms, n), ms), ms);
    if n > 0 {
      PutAllKeeps(w, blobs, ms, n - 1, inPlay);
      var before, after := PutAll(blobs, RefsUpTo(w, ms, n - 1), ms), PutAll(blobs, RefsUpTo(w, ms, n), ms);
      FilesInPlay(ms, n - 1, inPlay);
      PutFilesKeeps(w, before, ms[n - 1].files, inPlay);
      GrownTransitive(blobs, before, after);
      OneMoreMessage(w, before, after, ms, n);
    }
  }

  lemma KeptIsIntact(w: World, blobs: map<string, seq<byte>>, e: nat, k: nat, a: Attachment)
    requires Kept(w, blobs, a) && Usable(w, a)
    ensures Read(w, Steady(blobs), e, k, RefOf(w, a)) == Ok(a)
  {
    assert Intact(w, Steady(blobs)(e, k, w.digest(a.bytes)), RefOf(w, a), a.bytes);
  }

  lemma FrontFiles(w: World, blobs: map<string, seq<byte>>, files: seq<Attachment>)
    requires files != [] && FilesKept(w, blobs, files) && FilesUsable(w, files)
    ensures var front, last := files[..|files| - 1], files[|files| - 1];
            && FilesKept(w, blobs, front) && FilesUsable(w, front) && Kept(w, blobs, last) && Usable(w, last)
            && front + [last] == files
  {
    hide Kept, Usable;
  }

  lemma LastRef(w: World, disk: Disk, e: nat, files: seq<Attachment>)
    ensures files == [] ==> Restored(w, disk, e, RefsOf(w, files)) == [] && Lost(w, disk, e, RefsOf(w, files)) == []
    ensures files != [] ==>
              var k := |files| - 1;
              var front, res := RefsOf(w, files[..k]), Read(w, disk, e, k, RefOf(w, files[k]));
              && |RefsOf(w, files)| == |files| && |front| == k
              && Restored(w, disk, e, RefsOf(w, files)) == Restored(w, disk, e, front) + (if res.Ok? then [res.value] else [])
              && (res.Ok? ==> Lost(w, disk, e, RefsOf(w, files)) == Lost(w, disk, e, front))
  {
    if files != [] {
      hide Read;
      assert RefsOf(w, files)[..|files| - 1] == RefsOf(w, files[..|files| - 1]);
    }
  }

  lemma {:induction false} RestoresFiles(w: World, blobs: map<string, seq<byte>>, e: nat, files: seq<Attachment>)
    requires FilesKept(w, blobs, files) && FilesUsable(w, files)
    ensures Restored(w, Steady(blobs), e, RefsOf(w, files)) == files && Lost(w, Steady(blobs), e, RefsOf(w, files)) == []
    decreases |files|
  {
    hide *;
    LastRef(w, Steady(blobs), e, files);
    if files != [] {
      FrontFiles(w, blobs, files);
      KeptIsIntact(w, blobs, e, |files| - 1, files[|files| - 1]);
      RestoresFiles(w, blobs, e, files[..|files| - 1]);
    }
  }

  lemma RestoresMessage(w: World, disk: Disk, e: nat, refs: seq<AttachmentRef>, m: Held)
    requires Restored(w, disk, e, refs) == m.files && Lost(w, disk, e, refs) == []
    ensures ResolvedMessage(w, disk, e, refs, m.(files := [])) == m
  {
    assert [] + m.files == m.files;
  }

  /** The first `n` messages whole, the rest still stripped. */
  function Resumed(ms: seq<Held>, n: nat): seq<Held>
    requires n <= |ms|
  {
    seq(|ms|, i requires 0 <= i < |ms| => if i < n then ms[i] else ms[i].(files := []))
  }

  /** The messages a session file carries: no attachments. */
  function Stripped(ms: seq<Held>): (r: seq<Held>)
    ensures |r| == |ms|
  {
    Resumed(ms, 0)
  }

  lemma ResumedStep(ms: seq<Held>, n: nat)
    requires 0 < n <= |ms|
    ensures |Resumed(ms, n - 1)| == |ms| && Resumed(ms, n - 1)[n - 1] == ms[n - 1].(files := [])
    ensures Resumed(ms, n) == Resumed(ms, n - 1)[n - 1 := ms[n - 1]]
    ensures ms[n - 1].files == [] ==> Resumed(ms, n) == Resumed(ms, n - 1)
  {
  }

  lemma ResolveLast(w: World, disk: Disk, refs: seq<Entry>, ms: seq<Held>)
    requires refs != [] && refs[|refs| - 1].message < |ms|
    ensures var e := |refs| - 1;
            var prev, i := ResolvedAll(w, disk, refs[..e], ms), refs[e].message;
            && ResolvedAll(w, disk, refs, ms) == prev[i := ResolvedMessage(w, disk, e, refs[e].files, prev[i])]
            && LostAll(w, disk, refs, |ms|) == LostAll(w, disk, refs[..e], |ms|) + Lost(w, disk, e, refs[e].files)
  {
    hide ResolvedMessage, Lost;
  }

  lemma ResumeStep(w: World, blobs: map<string, seq<byte>>, ms: seq<Held>, n: nat)
    requires 0 < n <= |ms| && FilesKept(w, blobs, ms[n - 1].files) && FilesUsable(w, ms[n - 1].files)
    requires ResolvedAll(w, Steady(blobs), RefsUpTo(w, ms, n - 1), Stripped(ms)) == Resumed(ms, n - 1)
    requires LostAll(w, Steady(blobs), RefsUpTo(w, ms, n - 1), |ms|) == []
    ensures ResolvedAll(w, Steady(blobs), RefsUpTo(w, ms, n), Stripped(ms)) == Resumed(ms, n)
    ensures LostAll(w, Steady(blobs), RefsUpTo(w, ms, n), |ms|) == []
  {
    hide *;
    RefsUpToStep(w, ms, n);
    ResumedStep(ms, n);
    if ms[n - 1].files != [] {
      var e := |RefsUpTo(w, ms, n)| - 1;
      RestoresFiles(w, blobs, e, ms[n - 1].files);
      RestoresMessage(w, Steady(blobs), e, RefsOf(w, ms[n - 1].files), ms[n - 1]);
      ResolveLast(w, Steady(blobs), RefsUpTo(w, ms, n), Stripped(ms));
    }
  }

  lemma ResumeNone(w: World, disk: Disk, ms: seq<Held>)
    ensures ResolvedAll(w, disk, RefsUpTo(w, ms, 0), Stripped(ms)) == Resumed(ms, 0)
    ensures LostAll(w, disk, RefsUpTo(w, ms, 0), |ms|) == []
  {
  }

  lemma KeptSoFar(w: World, blobs: map<string, seq<byte>>, ms: seq<Held>, n: nat)
    requires 0 < n <= |ms| && AllUsable(w, ms) && HistoryKept(w, blobs, ms, n)
    ensures HistoryKept(w, blobs, ms, n - 1) && FilesKept(w, blobs, ms[n - 1].files) && FilesUsable(w, ms[n - 1].files)
  {
    hide Kept, Usable, FilesKept, FilesUsable;
  }

  lemma {:induction false} ResumeUpTo(w: World, blobs: map<string, seq<byte>>, ms: seq<Held>, n: nat)
    requires n <= |ms| && AllUsable(w, ms) && HistoryKept(w, blobs, ms, n)
    ensures ResolvedAll(w, Steady(blobs), RefsUpTo(w, ms, n), Stripped(ms)) == Resumed(ms, n)
    ensures LostAll(w, Steady(blobs), RefsUpTo(w, ms, n), |ms|) == []
  {
    hide *;
    if n == 0 {
      ResumeNone(w, Steady(blobs), ms);
    } else {
      KeptSoFar(w, blobs, ms, n);
      ResumeUpTo(w, blobs, ms, n - 1);
      ResumeStep(w, blobs, ms, n);
    }
  }

  /** Saving, then resuming, gives every message back exactly, with nothing lost: whatever was in the store
      already, as long as SHA-256 does not collide on the attachments and the blobs under their digests are
      theirs. */
  lemma SaveThenResume(w: World, blobs: map<string, seq<byte>>, ms: seq<Held>, inPlay: set<seq<byte>>)
    requires NoCollision(w, inPlay) && Agrees(w, blobs, inPlay) && InPlay(ms, inPlay) && AllUsable(w, ms)
    ensures var refs, after := AttachmentRefs(w, ms), PutAll(blobs, AttachmentRefs(w, ms), ms);
            && Grown(blobs, after) && Agrees(w, after, inPlay) && (Honest(w, blobs, inPlay) ==> Honest(w, after, inPlay))
            && ResolvedAll(w, Steady(after), refs, Stripped(ms)) == ms
            && LostAll(w, Steady(after), refs, |ms|) == []
  {
    PutAllKeeps(w, blobs, ms, |ms|, inPlay);
    ResumeUpTo(w, PutAll(blobs, AttachmentRefs(w, ms), ms), ms, |ms|);
    assert Resumed(ms, |ms|) == ms;
  }

  /** Saved into this store and resumed from it, the conversation is what it was, and nothing is lost. */
  predicate ComesBack(w: World, blobs: map<string, seq<byte>>, ms: seq<Held>) {
    var refs, after := AttachmentRefs(w, ms), PutAll(blobs, AttachmentRefs(w, ms), ms);
    ResolvedAll(w, Steady(after), refs, Stripped(ms)) == ms && LostAll(w, Steady(after), refs, |ms|) == []
  }

  /** An honest store is such a one. */
  lemma HonestStoreSaves(w: World, blobs: map<string, seq<byte>>, ms: seq<Held>, inPlay: set<seq<byte>>)
    requires NoCollision(w, inPlay) && Honest(w, blobs, inPlay) && InPlay(ms, inPlay) && AllUsable(w, ms)
    ensures ComesBack(w, blobs, ms) && Honest(w, PutAll(blobs, AttachmentRefs(w, ms), ms), inPlay)
  {
    hide Honest, NoCollision, Agrees, InPlay, AllUsable, IsBlobName, PutAll, RefsUpTo, Stripped, ResolvedAll, LostAll;
    HonestAgrees(w, blobs, inPlay);
    SaveThenResume(w, blobs, ms, inPlay);
  }

  // ---- whatever the disk holds ----

  function CountFiles(ms: seq<Held>): nat {
    if ms == [] then 0 else |ms[|ms| - 1].files| + CountFiles(ms[..|ms| - 1])
  }

  function CountRefs(refs: seq<Entry>, n: nat): nat {
    if refs == [] then 0
    else CountRefs(refs[..|refs| - 1], n) + if refs[|refs| - 1].message < n then |refs[|refs| - 1].files| else 0
  }

  lemma {:induction false} CountUpdate(ms: seq<Held>, i: nat, m: Held)
    requires i < |ms|
    ensures CountFiles(ms[i := m]) == CountFiles(ms) - |ms[i].files| + |m.files|
  {
    var n := |ms| - 1;
    if i < n {
      CountUpdate(ms[..n], i, m);
      assert ms[i := m][..n] == ms[..n][i := m];
    } else {
      assert ms[i := m][..n] == ms[..n];
    }
  }

  lemma ReadIsUsable(w: World, disk: Disk, e: nat, k: nat, r: AttachmentRef)
    ensures var res := Read(w, disk, e, k, r); res.Ok? ==> Usable(w, res.value) && RefOf(w, res.value) == r
  {
  }

  lemma {:induction false} FilesConserved(w: World, disk: Disk, e: nat, refs: seq<AttachmentRef>)
    ensures |Restored(w, disk, e, refs)| + |Lost(w, disk, e, refs)| == |refs|
    ensures forall a :: a in Restored(w, disk, e, refs) ==> Usable(w, a) && RefOf(w, a) in refs
    ensures forall l :: l in Lost(w, disk, e, refs) ==>
              exists k :: 0 <= k < |refs| && refs[k].filename == l.filename && Read(w, disk, e, k, refs[k]) == Err(l.reason)
    decreases |refs|
  {
    hide *;
    if refs == [] {
      NothingYet(w, disk, e);
    } else {
      var n := |refs| - 1;
      FilesConserved(w, disk, e, refs[..n]);
      assert refs[..n + 1] == refs;
      NextRef(w, disk, e, refs, n);
      ReadIsUsable(w, disk, e, n, refs[n]);
      forall l | l in Lost(w, disk, e, refs)
        ensures exists k :: 0 <= k < |refs| && refs[k].filename == l.filename && Read(w, disk, e, k, refs[k]) == Err(l.reason)
      {
        if l in Lost(w, disk, e, refs[..n]) {
          var k :| 0 <= k < n && refs[..n][k].filename == l.filename && Read(w, disk, e, k, refs[..n][k]) == Err(l.reason);
          assert refs[k] == refs[..n][k];
        } else {
          assert Read(w, disk, e, n, refs[n]) == Err(l.reason);
        }
      }
    }
  }

  /** Conservation: every reference to a message that exists is either restored or reported lost. */
  lemma {:induction false} RestoredPlusLost(w: World, disk: Disk, refs: seq<Entry>, ms: seq<Held>)
    ensures CountFiles(ResolvedAll(w, disk, refs, ms)) + |LostAll(w, disk, refs, |ms|)| == CountFiles(ms) + CountRefs(refs, |ms|)
  {
    if refs != [] {
      var n := |refs| - 1;
      RestoredPlusLost(w, disk, refs[..n], ms);
      var i, prev := refs[n].message, ResolvedAll(w, disk, refs[..n], ms);
      if i < |ms| {
        FilesConserved(w, disk, n, refs[n].files);
        CountUpdate(prev, i, ResolvedMessage(w, disk, n, refs[n].files, prev[i]));
      }
    }
  }

  predicate HasAt(text: string, line: string, i: nat) { i + |line| <= |text| && text[i..i + |line|] == line }

  lemma HasAtConcat(a: string, b: string, line: string, i: nat)
    ensures HasAt(a, line, i) ==> HasAt(a + b, line, i)
    ensures HasAt(b, line, i) ==> HasAt(a + b, line, |a| + i)
  {
    if HasAt(a, line, i) { assert (a + b)[i..i + |line|] == a[i..i + |line|]; }
    if HasAt(b, line, i) { assert (a + b)[|a| + i..|a| + i + |line|] == b[i..i + |line|]; }
  }

  lemma {:induction false} NoteNames(losses: seq<Loss>, l: Loss) returns (i: nat)
    requires l in losses
    ensures HasAt(Note(losses), LossLine(l), i)
  {
    hide *;
    var n := |losses| - 1;
    NoteSplits(losses);
    var front, last := Note(losses[..n]), LossLine(losses[n]);
    if l == losses[n] {
      HasAtConcat(front, last, last, 0);
      i := |front|;
    } else {
      InFront(losses, l);
      i := NoteNames(losses[..n], l);
      HasAtConcat(front, last, LossLine(l), i);
    }
  }

  lemma InFront(losses: seq<Loss>, l: Loss)
    requires l in losses && l != losses[|losses| - 1]
    ensures l in losses[..|losses| - 1]
  {
  }

  lemma NoteSplits(losses: seq<Loss>)
    requires losses != []
    ensures var last := LossLine(losses[|losses| - 1]); Note(losses) == Note(losses[..|losses| - 1]) + last && HasAt(last, last, 0)
  {
    hide LossLine;
  }

  /** No loss is silent: the resumed message's own text has a line for every one. */
  lemma LossesAreNamed(w: World, disk: Disk, e: nat, refs: seq<AttachmentRef>, m: Held, l: Loss)
    requires l in Lost(w, disk, e, refs)
    ensures exists i :: 0 <= i && HasAt(TextOf(ResolvedMessage(w, disk, e, refs, m)), LossLine(l), i)
  {
    var losses := Lost(w, disk, e, refs);
    assert TextOf(ResolvedMessage(w, disk, e, refs, m)) == TextOf(m) + Note(losses);
    hide *;
    var i := NoteNames(losses, l);
    HasAtConcat(TextOf(m), Note(losses), LossLine(l), i);
  }

  // ---- and can be read back ----

  predicate PrefixOf(a: string, b: string) { |a| <= |b| && b[..|a|] == a }

  /** How each reason begins and ends. */
  lemma ReasonsOpen(r: LossReason)
    ensures var x := ReasonText(r);
            && |x| >= 20
            && x[..20] == (match r
                           case Missing => "its stored copy is m"
                           case Corrupt => "its stored copy does"
                           case Unreadable => "its stored copy coul"
                           case Invalid => "its stored copy is n")
            && x[|x| - 1] == (match r case Missing => 'g' case Corrupt => 'm' case Unreadable => 'd' case Invalid => 'F')
  {
  }

  /** No reason reads like another, nor like the beginning of one. */
  lemma ReasonsDiffer(a: LossReason, b: LossReason)
    requires PrefixOf(ReasonText(a), ReasonText(b))
    ensures a == b
  {
    ReasonsOpen(a);
    ReasonsOpen(b);
    hide ReasonText;
    var x, y := ReasonText(a), ReasonText(b);
    assert x[..20] == y[..|x|][..20] == y[..20];
    assert x[..20][16] == y[..20][16] && x[..20][19] == y[..20][19];
  }

  /** So a line tells one file and one reason only. */
  lemma LineReadsBack(f: string, a: LossReason, g: string, b: LossReason)
    requires f + ": " + ReasonText(a) == g + ": " + ReasonText(b)
    ensures f == g && a == b
  {
    ReasonsOpen(a);
    ReasonsOpen(b);
    hide ReasonText;
    var x, y := ReasonText(a), ReasonText(b);
    var s, t := f + ": " + x, g + ": " + y;
    assert x[|x| - 1] == s[|s| - 1] && y[|y| - 1] == t[|t| - 1];
    assert a == b;
    assert f == s[..|s| - |x| - 2] && g == t[..|t| - |y| - 2];
  }

  /** No loss is silent: for every reference that could not be read the resumed message's own text has a line
      with the file's name and the reason. */
  lemma LossesAreTold(w: World, disk: Disk, e: nat, refs: seq<AttachmentRef>, m: Held, k: nat)
    requires k < |refs| && ReadBlob(w, disk(e, k, refs[k].sha256), refs[k]).Err?
    ensures var reason := ReadBlob(w, disk(e, k, refs[k].sha256), refs[k]).error;
            exists i :: 0 <= i && HasAt(TextOf(ResolvedMessage(w, disk, e, refs, m)), refs[k].filename + ": " + ReasonText(reason) + "\n", i)
  {
    var reason := ReadBlob(w, disk(e, k, refs[k].sha256), refs[k]).error;
    var l := Loss(refs[k].filename, reason);
    LostHas(w, disk, e, refs, k);
    assert LossLine(l) == refs[k].filename + ": " + ReasonText(reason) + "\n";
    hide *;
    LossesAreNamed(w, disk, e, refs, m, l);
  }

  lemma {:induction false} LostHas(w: World, disk: Disk, e: nat, refs: seq<AttachmentRef>, k: nat)
    requires k < |refs| && Read(w, disk, e, k, refs[k]).Err?
    ensures Loss(refs[k].filename, Read(w, disk, e, k, refs[k]).error) in Lost(w, disk, e, refs)
    decreases |refs|
  {
    hide Read;
    if k < |refs| - 1 { LostHas(w, disk, e, refs[..|refs| - 1], k); }
  }

  /** The reference came from an entry for this message. */
  predicate ReferencedAt(refs: seq<Entry>, i: nat, r: AttachmentRef) {
    exists k :: 0 <= k < |refs| && refs[k].message == i && r in refs[k].files
  }

  /** Some reference for this message could not be read. */
  predicate LosesSome(w: World, disk: Disk, refs: seq<Entry>, i: nat) {
    exists e, k :: 0 <= e < |refs| && refs[e].message == i && 0 <= k < |refs[e].files| && Read(w, disk, e, k, refs[e].files[k]).Err?
  }

  lemma MoreEntries(w: World, disk: Disk, refs: seq<Entry>, n: nat, i: nat)
    requires n <= |refs|
    ensures forall r :: ReferencedAt(refs[..n], i, r) ==> ReferencedAt(refs, i, r)
    ensures LosesSome(w, disk, refs[..n], i) ==> LosesSome(w, disk, refs, i)
  {
    hide Read;
    forall r | ReferencedAt(refs[..n], i, r)
      ensures ReferencedAt(refs, i, r)
    {
      var k :| 0 <= k < n && refs[..n][k].message == i && r in refs[..n][k].files;
      assert refs[k].message == i;
    }
    if LosesSome(w, disk, refs[..n], i) {
      var e, k :| 0 <= e < n && refs[..n][e].message == i
          && 0 <= k < |refs[..n][e].files| && Read(w, disk, e, k, refs[..n][e].files[k]).Err?;
      assert refs[e] == refs[..n][e];
    }
  }

  /** Nothing is made up: an attachment a resumed message holds was there already, or has the name, type,
      length and digest some reference for that message recorded. What a message held stays in front; its text
      only grows, and only when one of its references was lost. */
  lemma {:induction false} RestoredIsReferenced(w: World, disk: Disk, refs: seq<Entry>, ms: seq<Held>, i: nat)
    requires i < |ms|
    ensures var r := ResolvedAll(w, disk, refs, ms)[i];
            && (forall a :: a in r.files ==> a in ms[i].files || (Usable(w, a) && ReferencedAt(refs, i, RefOf(w, a))))
            && ms[i].files <= r.files && PrefixOf(TextOf(ms[i]), TextOf(r))
            && (r.text != ms[i].text ==> LosesSome(w, disk, refs, i))
    decreases |refs|
  {
    if refs != [] {
      var n := |refs| - 1;
      RestoredIsReferenced(w, disk, refs[..n], ms, i);
      MoreEntries(w, disk, refs, n, i);
      hide Read, ReadBlob, Usable, RefOf, Note, LosesSome, ReferencedAt, Restored, Lost, IsBlobName;
      if refs[n].message == i {
        FilesConserved(w, disk, n, refs[n].files);
        EntryReferences(refs, n);
        if Lost(w, disk, n, refs[n].files) != [] { LostIsSome(w, disk, refs, i, n); }
      }
    }
  }

  lemma EntryReferences(refs: seq<Entry>, n: nat)
    requires n < |refs|
    ensures forall r :: r in refs[n].files ==> ReferencedAt(refs, refs[n].message, r)
  {
  }

  lemma LostIsSome(w: World, disk: Disk, refs: seq<Entry>, i: nat, n: nat)
    requires n < |refs| && refs[n].message == i && Lost(w, disk, n, refs[n].files) != []
    ensures LosesSome(w, disk, refs, i)
  {
    hide Read, Lost;
    var l := Lost(w, disk, n, refs[n].files)[0];
    FilesConserved(w, disk, n, refs[n].files);
    assert l in Lost(w, disk, n, refs[n].files);
  }

  lemma ResumeStaysUsable(w: World, disk: Disk, refs: seq<Entry>, ms: seq<Held>)
    requires AllUsable(w, ms)
    ensures AllUsable(w, ResolvedAll(w, disk, refs, ms))
  {
    var r := ResolvedAll(w, disk, refs, ms);
    forall i | 0 <= i < |r|
      ensures FilesUsable(w, r[i].files)
    {
      RestoredIsReferenced(w, disk, refs, ms, i);
      forall j | 0 <= j < |r[i].files|
        ensures Usable(w, r[i].files[j])
      {
        assert r[i].files[j] in r[i].files;
      }
    }
  }

  // ---- a second resume ----

  lemma RestoredIsKept(w: World, blobs: map<string, seq<byte>>, e: nat, k: nat, r: AttachmentRef)
    ensures var res := Read(w, Steady(blobs), e, k, r); res.Ok? ==> Kept(w, blobs, res.value) && Usable(w, res.value)
  {
  }

  lemma {:induction false} FilesRestoredAreKept(w: World, blobs: map<string, seq<byte>>, e: nat, refs: seq<AttachmentRef>)
    ensures var files := Restored(w, Steady(blobs), e, refs); FilesKept(w, blobs, files) && FilesUsable(w, files)
    decreases |refs|
  {
    hide Read, Kept, Usable;
    if refs != [] {
      FilesRestoredAreKept(w, blobs, e, refs[..|refs| - 1]);
      RestoredIsKept(w, blobs, e, |refs| - 1, refs[|refs| - 1]);
    }
  }

  /** What a store gives back it has. */
  lemma {:induction false} ResumeIsKept(w: World, blobs: map<string, seq<byte>>, refs: seq<Entry>, ms: seq<Held>)
    requires HistoryKept(w, blobs, ms, |ms|) && AllUsable(w, ms)
    ensures var resumed := ResolvedAll(w, Steady(blobs), refs, ms);
            HistoryKept(w, blobs, resumed, |ms|) && AllUsable(w, resumed)
    decreases |refs|
  {
    hide Kept, Usable, Restored, Lost, Note;
    if refs != [] {
      var e := |refs| - 1;
      ResumeIsKept(w, blobs, refs[..e], ms);
      FilesRestoredAreKept(w, blobs, e, refs[e].files);
    }
  }

  lemma {:induction false} PutFilesKept(w: World, blobs: map<string, seq<byte>>, files: seq<Attachment>)
    requires FilesKept(w, blobs, files)
    ensures |RefsOf(w, files)| == |files| && PutFiles(blobs, RefsOf(w, files), files, |files|) == blobs
  {
    PutFilesStep(w, blobs, files);
    if files != [] {
      PutFilesKept(w, blobs, files[..|files| - 1]);
      assert Kept(w, blobs, files[|files| - 1]);
      hide RefsOf, PutFiles;
    }
  }

  /** Saving what the store has changes nothing in it. */
  lemma {:induction false} PutAllKept(w: World, blobs: map<string, seq<byte>>, ms: seq<Held>, n: nat)
    requires n <= |ms| && HistoryKept(w, blobs, ms, n)
    ensures PutAll(blobs, RefsUpTo(w, ms, n), ms) == blobs
  {
    PutAllStep(w, blobs, ms, n);
    if n > 0 {
      hide FilesKept, RefsOf, RefsUpTo, PutAll, PutFiles;
      PutAllKept(w, blobs, ms, n - 1);
      PutFilesKept(w, blobs, ms[n - 1].files);
    }
  }

  /** A loss is reported once: after a resume from any store, damaged blobs and all, a save leaves the store as
      it is, and resuming again gives the same messages and loses nothing more. */
  lemma LossReportedOnce(w: World, blobs: map<string, seq<byte>>, refs: seq<Entry>, ms: seq<Held>)
    requires HistoryKept(w, blobs, ms, |ms|) && AllUsable(w, ms)
    ensures var resumed := ResolvedAll(w, Steady(blobs), refs, ms);
            var again := AttachmentRefs(w, resumed);
            && PutAll(blobs, again, resumed) == blobs
            && ResolvedAll(w, Steady(blobs), again, Stripped(resumed)) == resumed
            && LostAll(w, Steady(blobs), again, |ms|) == []
  {
    var resumed := ResolvedAll(w, Steady(blobs), refs, ms);
    ResumeIsKept(w, blobs, refs, ms);
    PutAllKept(w, blobs, resumed, |ms|);
    ResumeUpTo(w, blobs, resumed, |ms|);
    assert Resumed(resumed, |ms|) == resumed;
    hide *;
  }

  // ---- exactly when a save can be resumed ----

  function BytesOf(ms: seq<Held>): set<seq<byte>> {
    set i, j | 0 <= i < |ms| && 0 <= j < |ms[i].files| :: ms[i].files[j].bytes
  }

  lemma OwnBytes(ms: seq<Held>)
    ensures InPlay(ms, BytesOf(ms))
    ensures forall x :: x in BytesOf(ms) ==> exists i, j :: 0 <= i < |ms| && 0 <= j < |ms[i].files| && ms[i].files[j].bytes == x
  {
  }

  /** No two attachments share a digest with different bytes, and none meets a blob under its digest that is
      not its own. */
  predicate Savable(w: World, blobs: map<string, seq<byte>>, ms: seq<Held>) {
    NoCollision(w, BytesOf(ms)) && Agrees(w, blobs, BytesOf(ms))
  }

  /** What the resume puts on message `i` is what it reads of that message's own references. */
  lemma {:induction false} ResolvedFiles(w: World, disk: Disk, ms: seq<Held>, n: nat, i: nat) returns (e: nat)
    requires n <= |ms| && i < |ms|
    ensures ResolvedAll(w, disk, RefsUpTo(w, ms, n), Stripped(ms))[i].files
         == if i < n then Restored(w, disk, e, RefsOf(w, ms[i].files)) else []
    decreases n
  {
    hide *;
    if n == 0 {
      NoneResolved(w, disk, ms, i);
      e := 0;
    } else {
      e := ResolvedFiles(w, disk, ms, n - 1, i);
      OneMoreResolved(w, disk, ms, n, i);
      if i == n - 1 && ms[i].files != [] { e := |RefsUpTo(w, ms, n)| - 1; }
      if i == n - 1 && ms[i].files == [] { NoFilesNoRefs(w, disk, e); }
    }
  }

  lemma NoneResolved(w: World, disk: Disk, ms: seq<Held>, i: nat)
    requires i < |ms|
    ensures ResolvedAll(w, disk, RefsUpTo(w, ms, 0), Stripped(ms))[i].files == []
  {
  }

  lemma OneMoreResolved(w: World, disk: Disk, ms: seq<Held>, n: nat, i: nat)
    requires 0 < n <= |ms| && i < |ms|
    ensures ms[n - 1].files != [] ==> |RefsUpTo(w, ms, n)| > 0
    ensures var before := ResolvedAll(w, disk, RefsUpTo(w, ms, n - 1), Stripped(ms));
            var after := ResolvedAll(w, disk, RefsUpTo(w, ms, n), Stripped(ms));
            after[i].files == if i == n - 1 && ms[i].files != []
                              then before[i].files + Restored(w, disk, |RefsUpTo(w, ms, n)| - 1, RefsOf(w, ms[i].files))
                              else before[i].files
  {
    hide *;
    RefsUpToStep(w, ms, n);
    if ms[n - 1].files != [] {
      var refs := RefsUpTo(w, ms, n);
      ResolveLast(w, disk, refs, Stripped(ms));
      var before := ResolvedAll(w, disk, RefsUpTo(w, ms, n - 1), Stripped(ms));
      ResolvedMessageIs(w, disk, |refs| - 1, RefsOf(w, ms[n - 1].files), before[n - 1]);
    }
  }

  lemma NoFilesNoRefs(w: World, disk: Disk, e: nat)
    ensures Restored(w, disk, e, RefsOf(w, [])) == []
  {
  }

  /** Files that all come back are all there. */
  lemma {:induction false} AllRestoredAreKept(w: World, blobs: map<string, seq<byte>>, e: nat, files: seq<Attachment>)
    requires Restored(w, Steady(blobs), e, RefsOf(w, files)) == files
    ensures FilesKept(w, blobs, files)
  {
    FilesRestoredAreKept(w, blobs, e, RefsOf(w, files));
  }

  lemma ComesBackOnlyIf(w: World, blobs: map<string, seq<byte>>, ms: seq<Held>)
    requires ComesBack(w, blobs, ms)
    ensures HistoryKept(w, PutAll(blobs, AttachmentRefs(w, ms), ms), ms, |ms|)
  {
    var after := PutAll(blobs, AttachmentRefs(w, ms), ms);
    hide FilesKept, Restored, PutAll, RefsUpTo, ResolvedAll, RefsOf, LostAll;
    forall i | 0 <= i < |ms|
      ensures FilesKept(w, after, ms[i].files)
    {
      var e := ResolvedFiles(w, Steady(after), ms, |ms|, i);
      AllRestoredAreKept(w, after, e, ms[i].files);
    }
  }

  /** A save only adds blobs. */
  lemma {:induction false} PutFilesGrows(blobs: map<string, seq<byte>>, refs: seq<AttachmentRef>, files: seq<Attachment>, n: nat)
    requires n <= |refs| && n <= |files|
    ensures Grown(blobs, PutFiles(blobs, refs, files, n))
  {
    if n > 0 { PutFilesGrows(blobs, refs, files, n - 1); }
  }

  lemma {:induction false} PutAllGrows(blobs: map<string, seq<byte>>, refs: seq<Entry>, ms: seq<Held>)
    ensures Grown(blobs, PutAll(blobs, refs, ms))
  {
    if refs != [] {
      var e := refs[|refs| - 1];
      var prev := PutAll(blobs, refs[..|refs| - 1], ms);
      PutAllGrows(blobs, refs[..|refs| - 1], ms);
      if e.message < |ms| {
        var files := ms[e.message].files;
        var n := if |e.files| < |files| then |e.files| else |files|;
        PutFilesGrows(prev, e.files, files, n);
        GrownTransitive(blobs, prev, PutFiles(prev, e.files, files, n));
      }
    }
  }

  lemma KeptIsSavable(w: World, blobs: map<string, seq<byte>>, after: map<string, seq<byte>>, ms: seq<Held>)
    requires Grown(blobs, after) && HistoryKept(w, after, ms, |ms|)
    ensures Savable(w, blobs, ms)
  {
    forall x | x in BytesOf(ms)
      ensures w.digest(x) in after && after[w.digest(x)] == x
    {
      var i, j :| 0 <= i < |ms| && 0 <= j < |ms[i].files| && ms[i].files[j].bytes == x;
      assert FilesKept(w, after, ms[i].files) && Kept(w, after, ms[i].files[j]);
    }
    hide BytesOf, HistoryKept, IsBlobName;
  }

  /** Whatever is in the store, a conversation saved into it comes back exactly when it is savable there. */
  lemma SaveThenResumeExactly(w: World, blobs: map<string, seq<byte>>, ms: seq<Held>)
    requires AllUsable(w, ms)
    ensures ComesBack(w, blobs, ms) <==> Savable(w, blobs, ms)
  {
    var after := PutAll(blobs, AttachmentRefs(w, ms), ms);
    OwnBytes(ms);
    hide AllUsable, BytesOf, InPlay, NoCollision, Agrees, Grown;
    hide HistoryKept, PutAll, RefsUpTo, ResolvedAll, LostAll, Stripped, IsBlobName;
    if Savable(w, blobs, ms) { SaveThenResume(w, blobs, ms, BytesOf(ms)); }
    if ComesBack(w, blobs, ms) {
      ComesBackOnlyIf(w, blobs, ms);
      PutAllGrows(blobs, AttachmentRefs(w, ms), ms);
      KeptIsSavable(w, blobs, after, ms);
    }
  }

  /** So after any resume, from any disk, a save into any store and a second resume lose nothing more exactly
      when what was restored is savable there. */
  lemma SecondResumeExactly(w: World, disk: Disk, refs: seq<Entry>, ms: seq<Held>, blobs: map<string, seq<byte>>)
    requires AllUsable(w, ms)
    ensures ComesBack(w, blobs, ResolvedAll(w, disk, refs, ms)) <==> Savable(w, blobs, ResolvedAll(w, disk, refs, ms))
  {
    ResumeStaysUsable(w, disk, refs, ms);
    SaveThenResumeExactly(w, blobs, ResolvedAll(w, disk, refs, ms));
  }

  /** A damaged blob under the digest of an attachment is not replaced by a save, and the attachment is lost. */
  lemma DamagedBlobStays(w: World, blobs: map<string, seq<byte>>, ms: seq<Held>, i: nat, j: nat)
    requires AllUsable(w, ms) && i < |ms| && j < |ms[i].files|
    requires w.digest(ms[i].files[j].bytes) in blobs && blobs[w.digest(ms[i].files[j].bytes)] != ms[i].files[j].bytes
    ensures var d, after := w.digest(ms[i].files[j].bytes), PutAll(blobs, AttachmentRefs(w, ms), ms);
            && d in after && after[d] == blobs[d] && !ComesBack(w, blobs, ms)
  {
    OwnBytes(ms);
    PutAllGrows(blobs, AttachmentRefs(w, ms), ms);
    assert ms[i].files[j].bytes in BytesOf(ms);
    hide PutAll, ComesBack, BytesOf, AllUsable, IsBlobName;
    SaveThenResumeExactly(w, blobs, ms);
  }
}
