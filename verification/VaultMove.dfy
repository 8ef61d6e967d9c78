// backend/vault.py: sealing a library note into the vault and destroying its
// plaintext, when any write may fail or store something else than it was given.

module VaultMove {
  import opened Text

  datatype Purpose = ForTitle | ForBody | ForEntry | ForData | ForName | ForMime

  /** A stored cell: an ideal sealed value, bound to key and column, or bytes that open with nothing. */
  datatype Blob = Sealed(key: nat, purpose: Purpose, content: string) | Junk

  function Unseal(key: nat, b: Blob, purpose: Purpose): Option<string> {
    if b.Sealed? && b.key == key && b.purpose == purpose then Some(b.content) else None
  }

  datatype Attachment = Attachment(kind: string, mime: Option<string>, name: string, path: string)

  /** `tags` is None when the stored list cannot be read. */
  datatype Note = Note(title: string, body: string, tags: Option<seq<string>>, entries: seq<string>,
      files: seq<Attachment>)

  datatype SealedFile = SealedFile(kind: string, name: Blob, mime: Option<Blob>, data: Blob)

  datatype SealedNote = SealedNote(title: Blob, body: Blob, entries: seq<Blob>, files: seq<SealedFile>)

  /** `held` names the notes whose title some task or schedule carries. */
  datatype Db = Db(notes: map<nat, Note>, held: set<nat>, vault: seq<SealedNote>, moved: seq<(nat, nat)>)

  /** The bytes at a path; None for a file that cannot be read. */
  type Disk = map<string, Option<string>>

  /** How one step on the database turns out. */
  datatype Fault = Fine | Stores(other: Blob) | Fails

  const ATTACHMENT_KINDS := {"photo", "voice", "file"}

  /** Where it came from and what it was tagged, for the vault keeps no filing. */
  function Trail(id: nat, tags: Option<seq<string>>): string {
    "\n---\n_moved into the vault from library note #" + Decimal(id) + "_" +
    (if tags.Some? && Join(tags.value, ", ") != "" then "\n_former tags: " + Join(tags.value, ", ") + "_" else "")
  }

  /** What must open from the sealed rows before the plaintext may go. */
  datatype Content = Content(title: string, body: string, entries: seq<string>, files: seq<string>)

  function Stripped(texts: seq<string>): (r: seq<string>)
    ensures |r| == |texts|
  {
    seq(|texts|, i requires 0 <= i < |texts| => Strip(texts[i], Spaces))
  }

  predicate Readable(a: Attachment, disk: Disk) {
    a.path in disk && disk[a.path].Some?
  }

  /** The bytes of the attachments that can be read, in order. */
  function DataOf(files: seq<Attachment>, disk: Disk): seq<string> {
    if files == [] then []
    else
      var before, a := DataOf(files[..|files| - 1], disk), files[|files| - 1];
      if Readable(a, disk) then before + [disk[a.path].value] else before
  }

  function ContentOf(id: nat, n: Note, disk: Disk): Content {
    Content(n.title, n.body + Trail(id, n.tags), Stripped(n.entries), DataOf(n.files, disk))
  }

  function UnsealAll(key: nat, blobs: seq<Blob>, purpose: Purpose): Option<seq<string>> {
    if blobs == [] then Some([])
    else
      var before, last := UnsealAll(key, blobs[..|blobs| - 1], purpose), Unseal(key, blobs[|blobs| - 1], purpose);
      if before.Some? && last.Some? then Some(before.value + [last.value]) else None
  }

  function DataBlobs(files: seq<SealedFile>): (r: seq<Blob>)
    ensures |r| == |files|
  {
    seq(|files|, i requires 0 <= i < |files| => files[i].data)
  }

  /** `get_note_in_conn`: open every sealed field, or fail. */
  function OpenRow(key: nat, row: SealedNote): Option<Content> {
    var title, body := Unseal(key, row.title, ForTitle), Unseal(key, row.body, ForBody);
    var entries, files := UnsealAll(key, row.entries, ForEntry), UnsealAll(key, DataBlobs(row.files), ForData);
    if title.Some? && body.Some? && entries.Some? && files.Some?
    then Some(Content(title.value, body.value, entries.value, files.value)) else None
  }

  predicate AllSealed(blobs: seq<Blob>, key: nat, purpose: Purpose, texts: seq<string>) {
    |blobs| == |texts| && forall i :: 0 <= i < |blobs| ==> blobs[i] == Sealed(key, purpose, texts[i])
  }

  /** The row is this content, sealed under the key. */
  predicate SealedAs(row: SealedNote, key: nat, c: Content) {
    && row.title == Sealed(key, ForTitle, c.title) && row.body == Sealed(key, ForBody, c.body)
    && AllSealed(row.entries, key, ForEntry, c.entries) && AllSealed(DataBlobs(row.files), key, ForData, c.files)
  }

  /** How many of the first `n` attachments can be read. */
  function Ordinal(files: seq<Attachment>, disk: Disk, n: nat): nat
    requires n <= |files|
  {
    |set i | 0 <= i < n && files[i].path in disk && disk[files[i].path].Some?|
  }

  /** The bytes of every attachment that can be read, in order, and nothing else. */
  predicate HasData(data: seq<string>, files: seq<Attachment>, disk: Disk) {
    && |data| == Ordinal(files, disk, |files|)
    && forall i: nat :: i < |files| && files[i].path in disk && disk[files[i].path].Some? ==>
         Ordinal(files, disk, i) < |data| && data[Ordinal(files, disk, i)] == disk[files[i].path].value
  }

  /** After the body: which note it was, and each of its tags. */
  predicate Traced(body: string, id: nat, n: Note) {
    && n.body <= body
    && Contains(body[|n.body|..], "#" + Decimal(id) + "_")
    && (n.tags.Some? ==> forall t :: t in n.tags.value ==> Contains(body[|n.body|..], t))
  }

  /** Everything the note held: title, body, Thoughts, attachments, and where it came from. */
  predicate Whole(c: Content, id: nat, n: Note, disk: Disk) {
    && c.title == n.title && Traced(c.body, id, n)
    && |c.entries| == |n.entries|
    && (forall i :: 0 <= i < |n.entries| ==> c.entries[i] == Strip(n.entries[i], Spaces))
    && HasData(c.files, n.files, disk)
  }

  /** The row is sealed and holds the whole note. */
  ghost predicate HoldsNote(row: SealedNote, key: nat, id: nat, n: Note, disk: Disk) {
    exists c :: SealedAs(row, key, c) && Whole(c, id, n, disk)
  }

  lemma {:induction false} UnsealAllExact(key: nat, blobs: seq<Blob>, purpose: Purpose, texts: seq<string>)
    ensures UnsealAll(key, blobs, purpose) == Some(texts) <==> AllSealed(blobs, key, purpose, texts)
  {
    if blobs != [] {
      var n := |blobs| - 1;
      var before := UnsealAll(key, blobs[..n], purpose);
      if before.Some? {
        UnsealAllExact(key, blobs[..n], purpose, before.value);
      }
      if |texts| == |blobs| {
        UnsealAllExact(key, blobs[..n], purpose, texts[..n]);
        assert texts == texts[..n] + [texts[n]];
      }
    }
  }

  lemma OpenRowExact(key: nat, row: SealedNote, c: Content)
    ensures OpenRow(key, row) == Some(c) <==> SealedAs(row, key, c)
  {
    hide UnsealAll, AllSealed, DataBlobs;
    UnsealAllExact(key, row.entries, ForEntry, c.entries);
    UnsealAllExact(key, DataBlobs(row.files), ForData, c.files);
  }

  lemma OrdinalNext(files: seq<Attachment>, disk: Disk, n: nat)
    requires n < |files|
    ensures Ordinal(files, disk, n + 1) == Ordinal(files, disk, n) + if Readable(files[n], disk) then 1 else 0
  {
    var a := set i | 0 <= i < n && files[i].path in disk && disk[files[i].path].Some?;
    var b := set i | 0 <= i < n + 1 && files[i].path in disk && disk[files[i].path].Some?;
    assert b == if Readable(files[n], disk) then a + {n} else a;
  }

  lemma OrdinalPrefix(files: seq<Attachment>, disk: Disk, k: nat, n: nat)
    requires n <= k <= |files|
    ensures Ordinal(files[..k], disk, n) == Ordinal(files, disk, n)
  {
    var a := set i | 0 <= i < n && files[i].path in disk && disk[files[i].path].Some?;
    assert a == set i | 0 <= i < n && files[..k][i].path in disk && disk[files[..k][i].path].Some?;
  }

  /** What is true of all attachments but the last stays so, and the last one comes at the end. */
  lemma HasDataMore(files: seq<Attachment>, disk: Disk, n: nat, before: seq<string>)
    requires |files| == n + 1 && HasData(before, files[..n], disk)
    ensures Readable(files[n], disk) ==> HasData(before + [disk[files[n].path].value], files, disk)
    ensures !Readable(files[n], disk) ==> HasData(before, files, disk)
  {
    hide Ordinal;
    OrdinalNext(files, disk, n);
    OrdinalPrefix(files, disk, n, n);
    forall i: nat | i < n && Readable(files[i], disk)
      ensures Ordinal(files, disk, i) < |before| && before[Ordinal(files, disk, i)] == disk[files[i].path].value
    {
      OrdinalPrefix(files, disk, n, i);
      assert files[..n][i] == files[i];
    }
  }

  /** The data kept is that of the readable attachments, each at its place. */
  lemma {:induction false} DataOfExact(files: seq<Attachment>, disk: Disk)
    ensures HasData(DataOf(files, disk), files, disk)
  {
    hide HasData, Readable;
    if files == [] {
      NoData(disk);
    } else {
      var n := |files| - 1;
      DataOfExact(files[..n], disk);
      HasDataMore(files, disk, n, DataOf(files[..n], disk));
    }
  }

  lemma NoData(disk: Disk)
    ensures HasData([], [], disk)
  {
  }

  lemma ContainsWithin(a: string, p: string, b: string)
    ensures Contains(a + p + b, p)
  {
    assert (a + p + b)[|a|..|a| + |p|] == p;
    assert OccursAt(a + p + b, p, |a|);
  }

  lemma ContainsMore(a: string, s: string, b: string, p: string)
    requires Contains(s, p)
    ensures Contains(a + s + b, p)
  {
    var i :| 0 <= i <= |s| && OccursAt(s, p, i);
    var w, k := a + s + b, |a| + i;
    assert w[k..k + |p|] == s[i..i + |p|];
    assert OccursAt(w, p, k);
  }

  lemma {:induction false} JoinContains(parts: seq<string>, sep: string, t: string)
    requires t in parts
    ensures Contains(Join(parts, sep), t)
  {
    hide Contains;
    if |parts| == 1 {
      ContainsWithin("", t, "");
      assert "" + t + "" == t;
    } else {
      var rest := Join(parts[1..], sep);
      if t == parts[0] {
        ContainsWithin("", t, sep + rest);
        assert "" + t + (sep + rest) == t + sep + rest;
      } else {
        JoinContains(parts[1..], sep, t);
        ContainsMore(parts[0] + sep, rest, "", t);
        assert parts[0] + sep + rest + "" == parts[0] + sep + rest;
      }
    }
  }

  /** The trail names the note and each former tag. */
  lemma TrailTraces(id: nat, tags: Option<seq<string>>)
    ensures Contains(Trail(id, tags), "#" + Decimal(id) + "_")
    ensures tags.Some? ==> forall t :: t in tags.value ==> Contains(Trail(id, tags), t)
  {
    hide Contains, Decimal, Join;
    var front, mark := "\n---\n_moved into the vault from library note ", "#" + Decimal(id) + "_";
    var joined := if tags.Some? then Join(tags.value, ", ") else "";
    var end := if joined != "" then "\n_former tags: " + joined + "_" else "";
    assert Trail(id, tags) == front + mark + end;
    ContainsWithin(front, mark, end);
    if tags.Some? {
      forall t | t in tags.value ensures Contains(Trail(id, tags), t) {
        JoinContains(tags.value, ", ", t);
        if joined != "" {
          ContainsMore(front + mark + "\n_former tags: ", joined, "_", t);
          assert front + mark + "\n_former tags: " + joined + "_" == front + mark + end;
        } else {
          EmptyContains(t);
          ContainsWithin("", "", Trail(id, tags));
          assert "" + "" + Trail(id, tags) == Trail(id, tags);
        }
      }
    }
  }

  lemma EmptyContains(t: string)
    requires Contains("", t)
    ensures t == ""
  {
  }

  lemma ContentIsWhole(id: nat, n: Note, disk: Disk)
    ensures Whole(ContentOf(id, n, disk), id, n, disk)
  {
    hide Contains, Decimal, Trail, HasData, Strip, DataOf;
    TrailTraces(id, n.tags);
    DataOfExact(n.files, disk);
    assert (n.body + Trail(id, n.tags))[|n.body|..] == Trail(id, n.tags);
  }

  /** A row that reads back as it should holds the whole note. */
  lemma OpenedHoldsNote(row: SealedNote, key: nat, id: nat, n: Note, disk: Disk)
    requires OpenRow(key, row) == Some(ContentOf(id, n, disk))
    ensures HoldsNote(row, key, id, n, disk)
  {
    hide OpenRow, ContentOf, SealedAs, Whole;
    OpenRowExact(key, row, ContentOf(id, n, disk));
    ContentIsWhole(id, n, disk);
  }

  /** The note is in the vault in full. */
  ghost predicate InVault(db: Db, key: nat, id: nat, n: Note, disk: Disk) {
    exists v :: 0 <= v < |db.vault| && HoldsNote(db.vault[v], key, id, n, disk)
  }

  /** Paths whose bytes are sealed. */
  predicate IsMovedFile(path: string, n: Note, disk: Disk) {
    (exists i :: 0 <= i < |n.files| && n.files[i].path == path) && path in disk && disk[path].Some?
  }

  /** Nothing but moved files is missing. */
  predicate OnlyMovedGone(before: Disk, now: Disk, n: Note) {
    && (forall p :: p in now ==> p in before && now[p] == before[p])
    && (forall p :: p in before && p !in now ==> IsMovedFile(p, n, before))
  }

  /** What may be found on restart: all untouched, or sealed in full with only plaintext destroyed. */
  ghost predicate Safe(was: (Db, Disk), now: (Db, Disk), key: nat, id: nat) {
    || now == was
    || (id in was.0.notes && now.0.notes == was.0.notes - {id} && was.0.vault <= now.0.vault &&
        InVault(now.0, key, id, was.0.notes[id], was.1) && OnlyMovedGone(was.1, now.1, was.0.notes[id]))
  }

  /** What a note must be for the move to be possible at all. */
  predicate Movable(db: Db, disk: Disk, id: nat) {
    id in db.notes && id !in db.held && Storable(db.notes[id], disk)
  }

  predicate AllSealable(files: seq<Attachment>, disk: Disk) {
    forall i :: 0 <= i < |files| && Readable(files[i], disk) ==> Sealable(files[i], disk)
  }

  predicate Sealable(a: Attachment, disk: Disk)
    requires Readable(a, disk)
  {
    (a.kind == "photo" || a.kind == "voice" || a.kind == "file") && disk[a.path].value != ""
  }

  lemma UnsealAllNext(key: nat, blobs: seq<Blob>, b: Blob, purpose: Purpose)
    ensures UnsealAll(key, blobs + [b], purpose) ==
            var before, last := UnsealAll(key, blobs, purpose), Unseal(key, b, purpose);
            if before.Some? && last.Some? then Some(before.value + [last.value]) else None
  {
    assert (blobs + [b])[..|blobs|] == blobs;
  }

  /** Sealing one more cell under the key adds its text to what opens. */
  lemma SealedOneMore(key: nat, blobs: seq<Blob>, texts: seq<string>, text: string, purpose: Purpose)
    requires UnsealAll(key, blobs, purpose) == Some(texts)
    ensures UnsealAll(key, blobs + [Sealed(key, purpose, text)], purpose) == Some(texts + [text])
  {
    UnsealAllNext(key, blobs, Sealed(key, purpose, text), purpose);
  }

  function MovedPaths(files: seq<Attachment>, disk: Disk): seq<string> {
    if files == [] then []
    else
      var before, a := MovedPaths(files[..|files| - 1], disk), files[|files| - 1];
      if Readable(a, disk) then before + [a.path] else before
  }

  lemma {:induction false} MovedPathsExact(files: seq<Attachment>, disk: Disk, p: string)
    ensures p in MovedPaths(files, disk) <==>
        exists i :: 0 <= i < |files| && files[i].path == p && Readable(files[i], disk)
  {
    hide Readable;
    if files != [] {
      var n := |files| - 1;
      MovedPathsExact(files[..n], disk, p);
      assert forall i :: 0 <= i < n ==> files[..n][i] == files[i];
    }
  }

  class Vault {
    /** What is committed, and what is on disk. */
    var db: Db
    var disk: Disk
    /** The open transaction. */
    var tx: Db
    var faults: seq<Fault>
    /** Every state a restart could have found since the move began. */
    ghost var found: seq<(Db, Disk)>

    constructor (db0: Db, disk0: Disk, faults0: seq<Fault>)
      ensures db == db0 && tx == db0 && disk == disk0 && faults == faults0 && found == []
    {
      db, tx, disk, faults, found := db0, db0, disk0, faults0, [];
    }

    /** No step fails from here on. */
    predicate Calm()
      reads this
    {
      forall i :: 0 <= i < |faults| ==> faults[i] == Fine
    }

    method Next() returns (f: Fault)
      modifies this`faults
      ensures old(Calm()) ==> f == Fine && Calm()
    {
      if faults == [] {
        return Fine;
      }
      f := faults[0];
      faults := faults[1..];
    }

    /** Write one cell: what ends up stored, or None for a failed write. */
    method Write(b: Blob) returns (stored: Option<Blob>)
      modifies this`faults
      ensures old(Calm()) ==> stored == Some(b) && Calm()
    {
      var f := Next();
      stored := match f
        case Fine => Some(b)
        case Stores(other) => Some(other)
        case Fails => None;
    }

    method Raises() returns (failed: bool)
      modifies this`faults
      ensures old(Calm()) ==> !failed && Calm()
    {
      var f := Next();
      failed := f.Fails?;
    }

    /** The row the open transaction is filling. */
    function Row(): SealedNote
      requires tx.vault != []
      reads this`tx
    {
      tx.vault[|tx.vault| - 1]
    }

    /** `create_note` inside the transaction. */
    method CreateRow(title: string, body: string, key: nat) returns (ok: bool)
      modifies this`tx, this`faults
      ensures ok ==> tx.vault != [] && tx == old(tx).(vault := old(tx).vault + [Row()])
      ensures ok ==> Row().entries == [] && Row().files == []
      ensures old(Calm()) ==> Calm() && (ok <==> !Blank(title))
      ensures old(Calm()) && ok ==> Row().title == Sealed(key, ForTitle, Strip(title, Spaces)) &&
                                    Row().body == Sealed(key, ForBody, body)
    {
      hide Blank, Strip;
      if Blank(title) {
        return false;
      }
      var t := Write(Sealed(key, ForTitle, Strip(title, Spaces)));
      var b := Write(Sealed(key, ForBody, body));
      if t.None? || b.None? {
        return false;
      }
      tx := tx.(vault := tx.vault + [SealedNote(t.value, b.value, [], [])]);
      ok := true;
    }

    /** `add_entry` for every Thought, each stripped. */
    method AddEntries(entries: seq<string>, key: nat) returns (ok: bool)
      requires tx.vault != [] && Row().entries == []
      modifies this`tx, this`faults
      ensures ok ==> |tx.vault| == |old(tx).vault| &&
                     tx == old(tx).(vault := old(tx).vault[|tx.vault| - 1 := old(Row()).(entries := Row().entries)])
      ensures old(Calm()) ==> Calm() && (ok <==> forall i :: 0 <= i < |entries| ==> !Blank(entries[i]))
      ensures old(Calm()) && ok ==> UnsealAll(key, Row().entries, ForEntry) == Some(Stripped(entries))
    {
      hide Blank, Strip;
      var v := |tx.vault| - 1;
      for i := 0 to |entries|
        invariant |tx.vault| == v + 1
        invariant tx == old(tx).(vault := old(tx).vault[v := old(Row()).(entries := Row().entries)])
        invariant old(Calm()) ==> Calm() && (forall j :: 0 <= j < i ==> !Blank(entries[j]))
        invariant old(Calm()) ==> UnsealAll(key, Row().entries, ForEntry) == Some(Stripped(entries[..i]))
      {
        if Blank(entries[i]) {
          return false;
        }
        var stored := Write(Sealed(key, ForEntry, Strip(entries[i], Spaces)));
        if stored.None? {
          return false;
        }
        var before := Row().entries;
        if old(Calm()) {
          SealedOneMore(key, before, Stripped(entries[..i]), Strip(entries[i], Spaces), ForEntry);
          assert Stripped(entries[..i + 1]) == Stripped(entries[..i]) + [Strip(entries[i], Spaces)];
        }
        tx := tx.(vault := tx.vault[v := tx.vault[v].(entries := before + [stored.value])]);
      }
      assert entries[..|entries|] == entries;
      ok := true;
    }

    /** One sealed attachment, or None when a write fails. */
    method SealFile(a: Attachment, data: string, key: nat) returns (f: Option<SealedFile>)
      modifies this`faults
      ensures old(Calm()) ==> Calm() && f.Some? && f.value.data == Sealed(key, ForData, data)
    {
      var name := Write(Sealed(key, ForName, a.name));
      var mime: Option<Option<Blob>> := Some(None);
      if a.mime.Some? {
        var m := Write(Sealed(key, ForMime, a.mime.value));
        mime := if m.None? then None else Some(m);
      }
      var blob := Write(Sealed(key, ForData, data));
      f := if name.None? || mime.None? || blob.None? then None
           else Some(SealedFile(a.kind, name.value, mime.value, blob.value));
    }

    /** `add_attachment` for one file whose bytes were read. */
    method AddFile(a: Attachment, bytes: string, key: nat) returns (ok: bool)
      requires tx.vault != []
      modifies this`tx, this`faults
      ensures ok ==> |tx.vault| == |old(tx).vault| &&
                     tx == old(tx).(vault := old(tx).vault[|tx.vault| - 1 := old(Row()).(files := Row().files)])
      ensures old(Calm()) ==> Calm() && (ok <==> bytes != "" && a.kind in ATTACHMENT_KINDS)
      ensures old(Calm()) && ok ==>
                forall texts :: UnsealAll(key, DataBlobs(old(Row()).files), ForData) == Some(texts) ==>
                  UnsealAll(key, DataBlobs(Row().files), ForData) == Some(texts + [bytes])
    {
      if bytes == "" || a.kind !in ATTACHMENT_KINDS {
        return false;
      }
      var f := SealFile(a, bytes, key);
      if f.None? {
        return false;
      }
      var v, before := |tx.vault| - 1, Row().files;
      assert DataBlobs(before + [f.value]) == DataBlobs(before) + [f.value.data];
      UnsealAllNext(key, DataBlobs(before), f.value.data, ForData);
      tx := tx.(vault := tx.vault[v := tx.vault[v].(files := before + [f.value])]);
      ok := true;
    }

    /** `add_attachment` for every file whose bytes can be read; the others are passed over. */
    method AddFiles(files: seq<Attachment>, key: nat) returns (ok: bool, paths: seq<string>, data: seq<string>)
      requires tx.vault != [] && Row().files == []
      modifies this`tx, this`faults
      ensures ok ==> |tx.vault| == |old(tx).vault| &&
                     tx == old(tx).(vault := old(tx).vault[|tx.vault| - 1 := old(Row()).(files := Row().files)])
      ensures ok ==> paths == MovedPaths(files, disk) && data == DataOf(files, disk)
      ensures old(Calm()) ==> Calm() && (ok <==> AllSealable(files, disk))
      ensures old(Calm()) && ok ==> UnsealAll(key, DataBlobs(Row().files), ForData) == Some(data)
    {
      hide Readable, Sealable, UnsealAll, DataBlobs;
      var v := |tx.vault| - 1;
      paths, data := [], [];
      NothingSealed(key);
      for i := 0 to |files|
        invariant |tx.vault| == v + 1
        invariant tx == old(tx).(vault := old(tx).vault[v := old(Row()).(files := Row().files)])
        invariant paths == MovedPaths(files[..i], disk) && data == DataOf(files[..i], disk)
        invariant old(Calm()) ==> Calm() && AllSealable(files[..i], disk)
        invariant old(Calm()) ==> UnsealAll(key, DataBlobs(Row().files), ForData) == Some(data)
      {
        var a := files[i];
        assert files[..i + 1][..i] == files[..i] && files[..i + 1][i] == a;
        var bytes := Read(a);
        if bytes.Some? {
          SealableIs(a, disk);
          var added := AddFile(a, bytes.value, key);
          if !added {
            return false, paths, data;
          }
          paths, data := paths + [a.path], data + [bytes.value];
        }
      }
      assert files[..|files|] == files;
      ok := true;
    }

    method Read(a: Attachment) returns (bytes: Option<string>)
      ensures bytes.Some? <==> Readable(a, disk)
      ensures bytes.Some? ==> bytes == disk[a.path]
    {
      bytes := if a.path in disk then disk[a.path] else None;
    }

    /** Write the note into the open transaction, read it back and compare every field by value. */
    method SealAndCheck(id: nat, n: Note, key: nat) returns (ok: bool, paths: seq<string>)
      modifies this`tx, this`faults
      ensures ok ==> tx.vault != [] && tx == old(tx).(vault := old(tx).vault + [Row()])
      ensures ok ==> OpenRow(key, Row()) == Some(ContentOf(id, n, disk)) && paths == MovedPaths(n.files, disk)
      ensures old(Calm()) ==> Calm()
      ensures old(Calm()) ==> (ok <==> Storable(n, disk))
    {
      hide Blank, Strip, Trail, AllSealable, DataOf, MovedPaths, UnsealAll, Stripped;
      ok, paths := false, [];
      var body := n.body + Trail(id, n.tags);
      var created := CreateRow(n.title, body, key);
      if !created {
        return;
      }
      var added := AddEntries(n.entries, key);
      if !added {
        return;
      }
      var kept, ps, data := AddFiles(n.files, key);
      if !kept {
        return;
      }
      var check := OpenRow(key, Row());
      ok := check.Some? && check.value.title == n.title && check.value.body == body &&
            check.value.entries == Stripped(n.entries) && check.value.files == data;
      paths := ps;
    }

    /** Destroy the plaintext, note the move, and commit. */
    method DestroyAndCommit(id: nat) returns (ok: bool)
      requires tx.vault != []
      modifies this`db, this`tx, this`faults, this`found
      ensures ok ==> db == old(tx).(notes := old(tx).notes - {id}, moved := old(tx).moved + [(id, |old(tx).vault| - 1)])
      ensures ok ==> found == old(found) + [(db, disk)]
      ensures !ok ==> db == old(db) && found == old(found)
      ensures old(Calm()) ==> Calm() && ok
    {
      var failed := Raises();
      if failed {
        return false;
      }
      tx := tx.(notes := tx.notes - {id});
      failed := Raises();
      if failed {
        return false;
      }
      tx := tx.(moved := tx.moved + [(id, |tx.vault| - 1)]);
      failed := Raises();
      if failed {
        return false;
      }
      db := tx;
      found := found + [(db, disk)];
      ok := true;
    }

    /** `os.remove`: it may fail, and fails on a file already gone. */
    method Remove(path: string) returns (gone: bool)
      modifies this`disk, this`faults, this`found
      ensures gone ==> path in old(disk) && disk == old(disk) - {path} && found == old(found) + [(db, disk)]
      ensures !gone ==> disk == old(disk) && found == old(found)
    {
      var failed := Raises();
      gone := !failed && path in disk;
      if gone {
        disk := disk - {path};
        found := found + [(db, disk)];
      }
    }

    /** After the commit: remove the moved files, naming those that stay. */
    method Unlink(paths: seq<string>) returns (leftovers: seq<string>)
      requires found != [] && found[|found| - 1] == (db, disk)
      modifies this`disk, this`faults, this`found
      ensures Between(disk, disk, old(disk))
      ensures forall p :: p in old(disk) && p !in disk ==> p in paths
      ensures forall p :: p in paths && p in disk ==> p in leftovers
      ensures old(found) <= found && found[|found| - 1] == (db, disk)
      ensures forall i :: |old(found)| <= i < |found| ==> found[i].0 == db && Between(disk, found[i].1, old(disk))
    {
      leftovers := [];
      for i := 0 to |paths|
        invariant Between(disk, disk, old(disk))
        invariant forall p :: p in old(disk) && p !in disk ==> p in paths[..i]
        invariant forall p :: p in paths[..i] && p in disk ==> p in leftovers
        invariant old(found) <= found && found[|found| - 1] == (db, disk)
        invariant forall i :: |old(found)| <= i < |found| ==> found[i].0 == db && Between(disk, found[i].1, old(disk))
      {
        assert paths[..i + 1] == paths[..i] + [paths[i]];
        ghost var was := disk;
        var gone := Remove(paths[i]);
        forall m | Between(was, m, old(disk)) ensures Between(disk, m, old(disk)) {
          BetweenLess(disk, was, m, old(disk));
        }
        if !gone {
          leftovers := leftovers + [paths[i]];
        }
      }
      assert paths[..|paths|] == paths;
    }

    /**
     * `move_note_to_vault`. At every moment a restart finds either everything
     * untouched or the note sealed in full; without faults it succeeds exactly
     * for the notes that can be moved.
     */
    method MoveNote(id: nat, key: Option<nat>) returns (out: Outcome)
      requires tx == db
      modifies this
      ensures forall i :: 0 <= i < |found| && key.Some? ==> Safe(old((db, disk)), found[i], key.value, id)
      ensures found != [] && found[|found| - 1] == (db, disk) && tx == db
      ensures out.Refused? ==> db == old(db) && disk == old(disk)
      ensures out.Moved? ==> key.Some? && id in old(db).notes && MovedInto(old(db), db, key.value, id, old(disk))
      ensures out.Moved? ==> forall p :: p in disk && IsMovedFile(p, old(db).notes[id], old(disk)) ==>
          p in out.leftovers
      ensures old(Calm()) ==> (out.Moved? <==> key.Some? && Movable(old(db), old(disk), id))
    {
      hide OpenRow, ContentOf, HoldsNote, Storable, MovedPaths, IsMovedFile, Safe, Between;
      found := [(db, disk)];
      UntouchedIsSafe(db, disk, if key.Some? then key.value else 0, id);
      if key.None? || id !in tx.notes || id in tx.held {
        return Refused;
      }
      var n := tx.notes[id];
      var ok, paths := SealAndCheck(id, n, key.value);
      if !ok {
        tx := db;
        return Refused;
      }
      assert OpenRow(key.value, tx.vault[|tx.vault| - 1]) == Some(ContentOf(id, n, disk));
      OpenedHoldsNote(tx.vault[|tx.vault| - 1], key.value, id, n, disk);
      ok := DestroyAndCommit(id);
      if !ok {
        tx := db;
        return Refused;
      }
      tx := db;
      forall p ensures p in paths <==> IsMovedFile(p, n, disk) {
        MovedFileExact(n, disk, p);
      }
      BetweenItself(disk);
      CommittedIsSafe(old(db), db, key.value, id, disk, disk, disk);
      var leftovers := Unlink(paths);
      out := Moved(|db.vault| - 1, leftovers);
      forall i | 2 <= i < |found| ensures Safe(old((db, disk)), found[i], key.value, id) {
        CommittedIsSafe(old(db), db, key.value, id, old(disk), found[i].1, disk);
      }
    }
  }

  datatype Outcome = Refused | Moved(vaultNote: nat, leftovers: seq<string>)

  /** The note is gone, one sealed row is new and opens to all it held, and nothing else changed. */
  ghost predicate MovedInto(a: Db, b: Db, key: nat, id: nat, disk: Disk)
    requires id in a.notes
  {
    && b.notes == a.notes - {id} && b.held == a.held
    && |b.vault| == |a.vault| + 1 && b.vault[..|a.vault|] == a.vault
    && HoldsNote(b.vault[|a.vault|], key, id, a.notes[id], disk)
    && b.moved == a.moved + [(id, |a.vault|)]
  }

  predicate Storable(n: Note, disk: Disk) {
    && !Blank(n.title) && Strip(n.title, Spaces) == n.title
    && (forall i :: 0 <= i < |n.entries| ==> !Blank(n.entries[i]))
    && AllSealable(n.files, disk)
  }

  lemma BetweenItself(d: Disk)
    ensures Between(d, d, d)
  {
  }

  lemma BetweenLess(low: Disk, d: Disk, mid: Disk, high: Disk)
    requires Between(low, d, d) && Between(d, mid, high)
    ensures Between(low, mid, high)
  {
  }

  lemma UntouchedIsSafe(a: Db, disk: Disk, key: nat, id: nat)
    ensures Safe((a, disk), (a, disk), key, id)
  {
  }

  lemma MovedFileExact(n: Note, disk: Disk, p: string)
    ensures p in MovedPaths(n.files, disk) <==> IsMovedFile(p, n, disk)
  {
    hide MovedPaths;
    MovedPathsExact(n.files, disk, p);
  }

  /** From the commit on only moved files disappear, so every later state is safe. */
  lemma CommittedIsSafe(a: Db, b: Db, key: nat, id: nat, before: Disk, mid: Disk, end: Disk)
    requires id in a.notes && MovedInto(a, b, key, id, before) && Between(end, mid, before)
    requires forall p :: p in before && p !in end ==> IsMovedFile(p, a.notes[id], before)
    ensures Safe((a, before), (b, mid), key, id)
  {
    hide HoldsNote, IsMovedFile;
  }

  predicate Between(low: Disk, mid: Disk, high: Disk) {
    && (forall p :: p in low ==> p in mid)
    && (forall p :: p in mid ==> p in high && mid[p] == high[p])
  }

  lemma SealableIs(a: Attachment, disk: Disk)
    requires Readable(a, disk)
    ensures Sealable(a, disk) <==> disk[a.path].value != "" && a.kind in ATTACHMENT_KINDS
  {
  }

  lemma NothingSealed(key: nat)
    ensures UnsealAll(key, DataBlobs([]), ForData) == Some([])
  {
  }
}
