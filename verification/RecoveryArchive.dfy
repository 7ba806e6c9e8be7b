/** The encrypted recovery artifact: magic, nonce, ciphertext and tag, written in chunks and restored atomically. */
module RecoveryArchive {
  import opened Wrappers
  import opened Streams

  type Bytes = seq<bv8>
  type Tag = b: Bytes | |b| == 16 witness seq(16, _ => 0)

  // AES-GCM with its keystream and its tag left abstract (sections 7.1 and 7.2 of NIST SP 800-38D).
  datatype Gcm = Gcm(
    keystream: (Bytes, Bytes, nat) -> bv8,
    tag: (Bytes, Bytes, string, Bytes) -> Tag)

  datatype ArchiveError =
    | TruncatedArtifact | UnsupportedFormat | TooLarge | InvalidLabel | AuthenticationFailed | IoFailed | CleanupFailed

  const MAGIC: Bytes := [0x54, 0x45, 0x4b, 0x44, 0x4f, 0x43, 0x53, 0x31]
  const NONCE_SIZE := 12
  const TAG_SIZE := 16
  const OVERHEAD := 36
  const CHUNK_SIZE := 1024 * 1024
  const MAX_PLAINTEXT_BYTES := 16 * 1024 * 1024 * 1024

  // ---- Labels ----

  function Utf8Width(c: char): nat {
    var point := c as int;
    if point < 0x80 then 1 else if point < 0x800 then 2 else if point < 0x10000 then 3 else 4
  }

  function Utf8Length(s: string): nat {
    if s == "" then 0 else Utf8Width(s[0]) + Utf8Length(s[1..])
  }

  predicate ValidLabel(artifact: string) {
    && artifact != ""
    && Utf8Length(artifact) <= 128
    && (forall k | 0 <= k < |artifact| :: artifact[k] as int >= 33)
  }

  function Aad(artifact: string): string {
    "tekdocs-recovery-v1:" + artifact
  }

  // ---- The container ----

  function Masked(gcm: Gcm, key: Bytes, nonce: Bytes, offset: nat, bytes: Bytes): (masked: Bytes)
    ensures |masked| == |bytes|
  {
    seq(|bytes|, i requires 0 <= i < |bytes| => bytes[i] ^ gcm.keystream(key, nonce, offset + i))
  }

  function Container(gcm: Gcm, key: Bytes, nonce: Bytes, artifact: string, plaintext: Bytes): Bytes {
    var ciphertext := Masked(gcm, key, nonce, 0, plaintext);
    MAGIC + nonce + ciphertext + gcm.tag(key, nonce, Aad(artifact), ciphertext)
  }

  function Opened(gcm: Gcm, key: Bytes, artifact: string, file: Bytes): Result<Bytes, ArchiveError> {
    if |file| < OVERHEAD then Err(TruncatedArtifact)
    else if file[..8] != MAGIC then Err(UnsupportedFormat)
    else if |file| - OVERHEAD > MAX_PLAINTEXT_BYTES then Err(TooLarge)
    else if !ValidLabel(artifact) then Err(InvalidLabel)
    else
      var nonce, ciphertext := file[8..20], file[20..|file| - TAG_SIZE];
      if gcm.tag(key, nonce, Aad(artifact), ciphertext) != file[|file| - TAG_SIZE..] then Err(AuthenticationFailed)
      else Ok(Masked(gcm, key, nonce, 0, ciphertext))
  }

  lemma MaskedTwice(gcm: Gcm, key: Bytes, nonce: Bytes, offset: nat, bytes: Bytes)
    ensures Masked(gcm, key, nonce, offset, Masked(gcm, key, nonce, offset, bytes)) == bytes
  {
  }

  lemma MaskedAppend(gcm: Gcm, key: Bytes, nonce: Bytes, offset: nat, a: Bytes, b: Bytes)
    ensures Masked(gcm, key, nonce, offset, a + b)
         == Masked(gcm, key, nonce, offset, a) + Masked(gcm, key, nonce, offset + |a|, b)
  {
  }

  lemma MaskedChunk(gcm: Gcm, key: Bytes, nonce: Bytes, bytes: Bytes, n: nat, chunk: Bytes)
    requires n + |chunk| <= |bytes| && chunk == bytes[n..n + |chunk|]
    ensures Masked(gcm, key, nonce, 0, bytes[..n + |chunk|])
         == Masked(gcm, key, nonce, 0, bytes[..n]) + Masked(gcm, key, nonce, n, chunk)
  {
    assert bytes[..n + |chunk|] == bytes[..n] + chunk;
    MaskedAppend(gcm, key, nonce, 0, bytes[..n], chunk);
  }

  lemma ContainerParts(gcm: Gcm, key: Bytes, nonce: Bytes, artifact: string, plaintext: Bytes)
    requires |nonce| == NONCE_SIZE
    ensures var file, ciphertext := Container(gcm, key, nonce, artifact, plaintext), Masked(gcm, key, nonce, 0, plaintext);
            && |file| == |plaintext| + OVERHEAD
            && file[..8] == MAGIC && file[8..20] == nonce && file[20..|file| - TAG_SIZE] == ciphertext
            && file[|file| - TAG_SIZE..] == gcm.tag(key, nonce, Aad(artifact), ciphertext)
  {
  }

  /** Opening what encryption wrote gives the plaintext back, at the cost of 36 bytes. */
  lemma RoundTrip(gcm: Gcm, key: Bytes, nonce: Bytes, artifact: string, plaintext: Bytes)
    requires |nonce| == NONCE_SIZE && ValidLabel(artifact) && |plaintext| <= MAX_PLAINTEXT_BYTES
    ensures Opened(gcm, key, artifact, Container(gcm, key, nonce, artifact, plaintext)) == Ok(plaintext)
    ensures |Container(gcm, key, nonce, artifact, plaintext)| == |plaintext| + 36
  {
    ContainerParts(gcm, key, nonce, artifact, plaintext);
    MaskedTwice(gcm, key, nonce, 0, plaintext);
  }

  /** A file opens to a plaintext exactly when it is, byte for byte, an encryption of it under this key and label. */
  lemma OpensExactlyContainers(gcm: Gcm, key: Bytes, artifact: string, file: Bytes, plaintext: Bytes)
    ensures Opened(gcm, key, artifact, file) == Ok(plaintext)
       <==> && ValidLabel(artifact) && |plaintext| <= MAX_PLAINTEXT_BYTES
            && exists nonce: Bytes :: |nonce| == NONCE_SIZE && file == Container(gcm, key, nonce, artifact, plaintext)
  {
    if Opened(gcm, key, artifact, file) == Ok(plaintext) {
      var nonce, ciphertext := file[8..20], file[20..|file| - TAG_SIZE];
      MaskedTwice(gcm, key, nonce, 0, ciphertext);
      assert file == file[..8] + file[8..20] + file[20..|file| - TAG_SIZE] + file[|file| - TAG_SIZE..];
      assert file == Container(gcm, key, nonce, artifact, plaintext);
    }
    if ValidLabel(artifact) && |plaintext| <= MAX_PLAINTEXT_BYTES {
      forall nonce: Bytes | |nonce| == NONCE_SIZE && file == Container(gcm, key, nonce, artifact, plaintext)
        ensures Opened(gcm, key, artifact, file) == Ok(plaintext) {
        RoundTrip(gcm, key, nonce, artifact, plaintext);
      }
    }
  }

  lemma AadNamesItsLabel(a: string, b: string)
    ensures Aad(a) == Aad(b) <==> a == b
  {
    assert Aad(a)[20..] == a && Aad(b)[20..] == b;
  }

  /** A sealed artifact whose nonce, label or ciphertext is replaced and whose tag is kept opens, under any key, exactly
      when the tag function takes the same value on what is opened as on what was sealed. So a changed label or
      ciphertext that is accepted exhibits two different inputs with one tag. */
  lemma AlterationNeedsTagCollision(gcm: Gcm, key: Bytes, nonce: Bytes, artifact: string, plaintext: Bytes,
                                    otherKey: Bytes, otherNonce: Bytes, other: string, altered: Bytes, content: Bytes)
    requires |otherNonce| == NONCE_SIZE
    ensures var ciphertext := Masked(gcm, key, nonce, 0, plaintext);
            var tag := gcm.tag(key, nonce, Aad(artifact), ciphertext);
            && (Opened(gcm, otherKey, other, MAGIC + otherNonce + altered + tag) == Ok(content)
                <==> && ValidLabel(other) && |altered| <= MAX_PLAINTEXT_BYTES
                     && gcm.tag(otherKey, otherNonce, Aad(other), altered) == tag
                     && content == Masked(gcm, otherKey, otherNonce, 0, altered))
            && (other != artifact || altered != ciphertext
                <==> (Aad(other), altered) != (Aad(artifact), ciphertext))
  {
    var ciphertext := Masked(gcm, key, nonce, 0, plaintext);
    var tag := gcm.tag(key, nonce, Aad(artifact), ciphertext);
    var file := MAGIC + otherNonce + altered + tag;
    assert file[..8] == MAGIC && file[8..20] == otherNonce;
    assert file[20..|file| - TAG_SIZE] == altered && file[|file| - TAG_SIZE..] == tag;
    AadNamesItsLabel(other, artifact);
  }

  // ---- The bytes of the file ----

  /** An artifact is the eight letters "TEKDOCS1", the nonce, each plaintext byte under its own keystream byte, and the tag
      of all of these under the name of the label. */
  lemma ContainerLayout(gcm: Gcm, key: Bytes, nonce: Bytes, artifact: string, plaintext: Bytes)
    requires |nonce| == 12
    ensures var file := Container(gcm, key, nonce, artifact, plaintext);
            && |file| == 8 + 12 + |plaintext| + 16
            && (forall k | 0 <= k < 8 :: file[k] as int == "TEKDOCS1"[k] as int)
            && (forall k | 0 <= k < 12 :: file[8 + k] == nonce[k])
            && (forall k | 0 <= k < |plaintext| :: file[20 + k] == plaintext[k] ^ gcm.keystream(key, nonce, k))
            && file[20 + |plaintext|..]
               == gcm.tag(key, nonce, "tekdocs-recovery-v1:" + artifact, file[20..20 + |plaintext|])
  {
    MagicSpells();
    ContainerParts(gcm, key, nonce, artifact, plaintext);
    var file, ciphertext := Container(gcm, key, nonce, artifact, plaintext), Masked(gcm, key, nonce, 0, plaintext);
    hide Container, Masked;
    forall k | 0 <= k < 8 ensures file[k] as int == "TEKDOCS1"[k] as int {
      assert file[..8][k] == file[k];
    }
    forall k | 0 <= k < 12 ensures file[8 + k] == nonce[k] {
      assert file[8..20][k] == file[8 + k];
    }
    forall k | 0 <= k < |plaintext| ensures file[20 + k] == plaintext[k] ^ gcm.keystream(key, nonce, k) {
      assert file[20..|file| - 16][k] == file[20 + k];
      MaskedAt(gcm, key, nonce, plaintext, k);
    }
  }

  lemma MaskedAt(gcm: Gcm, key: Bytes, nonce: Bytes, plaintext: Bytes, k: nat)
    requires k < |plaintext|
    ensures Masked(gcm, key, nonce, 0, plaintext)[k] == plaintext[k] ^ gcm.keystream(key, nonce, k)
  {
  }

  lemma MagicSpells()
    ensures |MAGIC| == 8 && forall k | 0 <= k < 8 :: MAGIC[k] as int == "TEKDOCS1"[k] as int
  {
  }

  /** The first thing wrong with a file is what opening it reports: too short, another format, too large, an unusable label,
      or a tag that is not the file's own. */
  lemma OpeningReports(gcm: Gcm, key: Bytes, artifact: string, file: Bytes)
    ensures var result, size := Opened(gcm, key, artifact, file), |file| - 36;
            && (result == Err(TruncatedArtifact) <==> size < 0)
            && (result == Err(UnsupportedFormat) <==> size >= 0 && file[..8] != MAGIC)
            && (result == Err(TooLarge) <==> size > 0x4_0000_0000 && file[..8] == MAGIC)
            && (result == Err(InvalidLabel) <==>
                  0 <= size <= 0x4_0000_0000 && file[..8] == MAGIC && !ValidLabel(artifact))
            && (result == Err(AuthenticationFailed) <==>
                  && 0 <= size <= 0x4_0000_0000 && file[..8] == MAGIC && ValidLabel(artifact)
                  && file[20 + size..] != gcm.tag(key, file[8..20], "tekdocs-recovery-v1:" + artifact, file[20..20 + size]))
  {
    hide ValidLabel, Masked;
  }

  lemma {:induction false} Utf8Bounds(s: string)
    ensures |s| <= Utf8Length(s) <= 4 * |s|
    ensures (forall k | 0 <= k < |s| :: s[k] as int < 128) <==> Utf8Length(s) == |s|
  {
    if s != "" {
      var rest := s[1..];
      Utf8Bounds(rest);
      assert forall k | 0 <= k < |rest| :: rest[k] == s[k + 1];
      assert forall k | 0 < k < |s| :: s[k] == rest[k - 1];
    }
  }

  /** A label is never empty, never longer than 128 characters and holds no space or control character; among ASCII labels
      these are the only limits. */
  lemma LabelsAreBounded(artifact: string)
    ensures ValidLabel(artifact) ==> 1 <= |artifact| <= 128 && forall k | 0 <= k < |artifact| :: artifact[k] > ' '
    ensures 1 <= |artifact| <= 128 && (forall k | 0 <= k < |artifact| :: ' ' < artifact[k] <= '~') ==> ValidLabel(artifact)
  {
    Utf8Bounds(artifact);
  }

  // ---- Encrypting a stream ----

  lemma Regroup(a: Bytes, b: Bytes, c: Bytes)
    ensures (a + b) + c == a + (b + c)
  {
  }

  class Output {
    var written: Bytes

    constructor ()
      ensures written == []
    {
      written := [];
    }

    method Write(bytes: Bytes)
      modifies this
      ensures written == old(written) + bytes
    {
      written := written + bytes;
    }
  }

  // A cipher context in the middle of a message: what it has masked so far, and where in the keystream it stands.
  class CipherContext {
    const gcm: Gcm
    const key: Bytes
    const nonce: Bytes
    const aad: string
    var position: nat

    constructor (gcm: Gcm, key: Bytes, nonce: Bytes, aad: string)
      ensures this.gcm == gcm && this.key == key && this.nonce == nonce && this.aad == aad && position == 0
    {
      this.gcm, this.key, this.nonce, this.aad := gcm, key, nonce, aad;
      position := 0;
    }

    method Update(chunk: Bytes) returns (masked: Bytes)
      modifies this
      ensures masked == Masked(gcm, key, nonce, old(position), chunk)
      ensures position == old(position) + |chunk|
    {
      masked := Masked(gcm, key, nonce, position, chunk);
      position := position + |chunk|;
    }
  }

  // Whatever the sizes of the chunks read, the output is the one container of the whole source.
  method EncryptStream(gcm: Gcm, source: ByteStream, destination: Output, key: Bytes, nonce: Bytes, artifact: string)
    returns (outcome: Option<ArchiveError>)
    requires source.position <= |source.data| && |nonce| == NONCE_SIZE
    modifies source`position, destination
    ensures var plaintext, before := source.data[old(source.position)..], old(destination.written);
            if !ValidLabel(artifact) then
              outcome == Some(InvalidLabel) && destination.written == before
            else if |plaintext| > MAX_PLAINTEXT_BYTES then
              && outcome == Some(TooLarge)
              && exists n | 0 <= n <= MAX_PLAINTEXT_BYTES ::
                   destination.written == before + (MAGIC + nonce) + Masked(gcm, key, nonce, 0, plaintext[..n])
            else
              outcome == None && destination.written == before + Container(gcm, key, nonce, artifact, plaintext)
  {
    if !ValidLabel(artifact) {
      return Some(InvalidLabel);
    }
    hide Masked, ValidLabel;
    ghost var plaintext, before, start := source.data[source.position..], destination.written, source.position;
    var encryptor := new CipherContext(gcm, key, nonce, Aad(artifact));
    destination.Write(MAGIC + nonce);
    var plaintextBytes := 0;
    var ciphertext: Bytes := [];
    var chunk := source.Read(CHUNK_SIZE);
    while chunk != []
      invariant start + plaintextBytes + |chunk| == source.position <= |source.data|
      invariant source.data[start + plaintextBytes..source.position] == chunk
      invariant chunk == [] ==> source.position == |source.data|
      invariant encryptor.position == plaintextBytes <= MAX_PLAINTEXT_BYTES
      invariant encryptor.gcm == gcm && encryptor.key == key && encryptor.nonce == nonce
      invariant ciphertext == Masked(gcm, key, nonce, 0, plaintext[..plaintextBytes])
      invariant destination.written == before + (MAGIC + nonce) + ciphertext
      decreases |source.data| - source.position + |chunk|
    {
      if plaintextBytes + |chunk| > MAX_PLAINTEXT_BYTES {
        assert destination.written
            == before + (MAGIC + nonce) + Masked(gcm, key, nonce, 0, plaintext[..plaintextBytes]);
        return Some(TooLarge);
      }
      MaskedChunk(gcm, key, nonce, plaintext, plaintextBytes, chunk);
      var masked := encryptor.Update(chunk);
      plaintextBytes := plaintextBytes + |chunk|;
      Regroup(before + (MAGIC + nonce), ciphertext, masked);
      ciphertext := ciphertext + masked;
      destination.Write(masked);
      chunk := source.Read(CHUNK_SIZE);
    }
    assert plaintext[..plaintextBytes] == plaintext;
    Regroup(before, MAGIC + nonce, ciphertext);
    Regroup(before, MAGIC + nonce + ciphertext, gcm.tag(key, nonce, Aad(artifact), ciphertext));
    destination.Write(gcm.tag(key, nonce, Aad(artifact), ciphertext));
    return None;
  }

  // ---- Restoring a file ----

  // The directory a restore writes into: the destination and the temporary file beside it. The ghosts record what the
  // destination held after every command, which is what a crash right then would leave behind, and how many commands
  // the operating system has failed.
  class Disk {
    var destination: Option<Bytes>
    var temporary: Option<Bytes>
    ghost var history: seq<Option<Bytes>>
    ghost var faults: nat

    method MakeTemporary() returns (done: bool)
      modifies this
      ensures destination == old(destination) && temporary == (if done then Some([]) else old(temporary))
      ensures history == old(history) + [destination] && faults == old(faults) + (if done then 0 else 1)
    {
      done := *;
      if done {
        temporary := Some([]);
      }
      history, faults := history + [destination], faults + (if done then 0 else 1);
    }

    // A failed write may have written some of the bytes.
    method Append(bytes: Bytes) returns (done: bool)
      requires temporary.Some?
      modifies this
      ensures destination == old(destination) && temporary.Some?
      ensures done ==> temporary.value == old(temporary.value) + bytes
      ensures history == old(history) + [destination] && faults == old(faults) + (if done then 0 else 1)
    {
      done := *;
      var count := |bytes|;
      if !done {
        count :| 0 <= count <= |bytes|;
      }
      temporary := Some(temporary.value + bytes[..count]);
      history, faults := history + [destination], faults + (if done then 0 else 1);
    }

    // Flushing, syncing and changing the mode of the temporary file.
    method Settle() returns (done: bool)
      modifies this`history, this`faults
      ensures history == old(history) + [destination] && faults == old(faults) + (if done then 0 else 1)
    {
      done := *;
      history, faults := history + [destination], faults + (if done then 0 else 1);
    }

    method Replace() returns (done: bool)
      requires temporary.Some?
      modifies this
      ensures if done then destination == old(temporary) && temporary == None
              else destination == old(destination) && temporary == old(temporary)
      ensures history == old(history) + [destination] && faults == old(faults) + (if done then 0 else 1)
    {
      done := *;
      if done {
        destination, temporary := temporary, None;
      }
      history, faults := history + [destination], faults + (if done then 0 else 1);
    }

    // Removing what is not there is not an error.
    method Unlink() returns (done: bool)
      modifies this
      ensures destination == old(destination)
      ensures temporary == if done then None else old(temporary)
      ensures !done ==> old(temporary).Some?
      ensures history == old(history) + [destination] && faults == old(faults) + (if done then 0 else 1)
    {
      done := *;
      done := done || temporary.None?;
      if done {
        temporary := None;
      }
      history, faults := history + [destination], faults + (if done then 0 else 1);
    }

    // Reading the artifact: a read may fail, or find the file cut short since its size was taken.
    method ReadSource(content: Bytes, position: nat, most: nat) returns (chunk: Option<Bytes>)
      requires position + most <= |content| && most > 0
      modifies this`faults
      ensures chunk.Some? ==> |chunk.value| <= most && chunk.value == content[position..position + |chunk.value|]
      ensures faults == old(faults) + if chunk.None? || chunk.value == [] then 1 else 0
    {
      var failed: bool := *;
      if failed {
        faults := faults + 1;
        return None;
      }
      var count: nat :| count <= most;
      faults := faults + if count == 0 then 1 else 0;
      return Some(content[position..position + count]);
    }
  }

  lemma SliceOfSlice(bytes: Bytes, from: nat, to: nat, start: nat, count: nat)
    requires from + start + count <= to <= |bytes|
    ensures bytes[from..to][..start + count] == bytes[from..to][..start] + bytes[from + start..from + start + count]
  {
  }

  // Decrypts into the temporary file. On success it holds the whole authenticated plaintext.
  method DecryptInto(gcm: Gcm, content: Bytes, disk: Disk, key: Bytes, artifact: string)
    returns (outcome: Option<ArchiveError>)
    requires |content| >= OVERHEAD && content[..8] == MAGIC && |content| - OVERHEAD <= MAX_PLAINTEXT_BYTES
    requires ValidLabel(artifact) && disk.temporary == Some([])
    modifies disk
    ensures disk.destination == old(disk.destination) && disk.temporary.Some? && old(disk.history) <= disk.history
    ensures forall k | |old(disk.history)| <= k < |disk.history| :: disk.history[k] == disk.destination
    ensures match outcome
            case None => Opened(gcm, key, artifact, content) == Ok(disk.temporary.value)
            case Some(e) =>
              || (e == AuthenticationFailed && Opened(gcm, key, artifact, content) == Err(e))
              || (e in {IoFailed, TruncatedArtifact} && disk.faults > old(disk.faults))
    ensures disk.faults >= old(disk.faults)
  {
    var nonce, tag := content[8..20], content[|content| - TAG_SIZE..];
    var decryptor := new CipherContext(gcm, key, nonce, Aad(artifact));
    ghost var ciphertext := content[20..|content| - TAG_SIZE];
    var authenticated: Bytes := [];
    var remaining := |content| - OVERHEAD;
    while remaining > 0
      invariant 0 <= remaining <= |ciphertext| && authenticated == ciphertext[..|ciphertext| - remaining]
      invariant decryptor.position == |ciphertext| - remaining
      invariant decryptor.gcm == gcm && decryptor.key == key && decryptor.nonce == nonce
      invariant disk.temporary == Some(Masked(gcm, key, nonce, 0, authenticated))
      invariant disk.destination == old(disk.destination) && old(disk.history) <= disk.history
      invariant disk.faults >= old(disk.faults)
      invariant forall k | |old(disk.history)| <= k < |disk.history| :: disk.history[k] == disk.destination
      decreases remaining
    {
      var position := |content| - TAG_SIZE - remaining;
      var chunk := disk.ReadSource(content, position, if CHUNK_SIZE < remaining then CHUNK_SIZE else remaining);
      if chunk.None? {
        return Some(IoFailed);
      }
      if chunk.value == [] {
        return Some(TruncatedArtifact);
      }
      MaskedAppend(gcm, key, nonce, 0, authenticated, chunk.value);
      SliceOfSlice(content, 20, |content| - TAG_SIZE, |authenticated|, |chunk.value|);
      authenticated := authenticated + chunk.value;
      var plain := decryptor.Update(chunk.value);
      var written := disk.Append(plain);
      if !written {
        return Some(IoFailed);
      }
      remaining := remaining - |chunk.value|;
    }
    assert authenticated == ciphertext;
    if gcm.tag(key, nonce, Aad(artifact), authenticated) != tag {
      return Some(AuthenticationFailed);
    }
    return None;
  }

  // At every command the destination is its old content or the complete authenticated plaintext.
  method DecryptFile(gcm: Gcm, content: Bytes, disk: Disk, key: Bytes, artifact: string)
    returns (outcome: Option<ArchiveError>)
    requires disk.temporary == None
    modifies disk
    ensures old(disk.history) <= disk.history
    ensures forall k | |old(disk.history)| <= k < |disk.history| ::
              || disk.history[k] == old(disk.destination)
              || (Opened(gcm, key, artifact, content).Ok?
                  && disk.history[k] == Some(Opened(gcm, key, artifact, content).value))
    ensures match outcome
            case None => Opened(gcm, key, artifact, content).Ok?
                         && disk.destination == Some(Opened(gcm, key, artifact, content).value)
            case Some(e) => disk.destination == old(disk.destination)
                            && (Opened(gcm, key, artifact, content) == Err(e) || disk.faults > old(disk.faults))
    ensures disk.temporary.Some? <==> outcome == Some(CleanupFailed)
  {
    if |content| < OVERHEAD {
      return Some(TruncatedArtifact);
    }
    if content[..8] != MAGIC {
      return Some(UnsupportedFormat);
    }
    if |content| - OVERHEAD > MAX_PLAINTEXT_BYTES {
      return Some(TooLarge);
    }
    if !ValidLabel(artifact) {
      return Some(InvalidLabel);
    }
    var done := disk.MakeTemporary();
    if !done {
      return Some(IoFailed);
    }
    outcome := DecryptInto(gcm, content, disk, key, artifact);
    if outcome == None {
      done := disk.Settle();
      if done {
        done := disk.Replace();
      }
      if done {
        return None;
      }
      outcome := Some(IoFailed);
    }
    done := disk.Unlink();
    if !done {
      outcome := Some(CleanupFailed);
    }
  }
}
