/**
 The documents of a backup on the drive: written by rename, read back and checked
 when a backup is opened (crates/mjolnir-image/src/set.rs, crates/mjolnir-image/src/completion.rs).
 */
module BackupFolder {
  import opened Arith
  import opened Store
  import opened Format
  import opened Acceptance
  import opened Shapes
  import C = CrossCheck
  import L = LayoutCheck
  import M = ManifestCheck
  import V = Verify

  const MANIFEST_FILE := "manifest.json"
  const LAYOUT_FILE := "disk-layout.json"
  const COMPLETION_FILE := "completion.json"

  datatype Document =
    | ManifestDocument(manifest: Manifest)
    | LayoutDocument(layout: DiskLayout)
    | CompletionDocument(completion: Completion)

  /** How documents become bytes and how their bytes are named. */
  datatype DocumentCodec = DocumentCodec(
    encode: Document -> Bytes, decode: Bytes -> Option<Document>, name: Bytes -> Digest)

  /** What is assumed: parsing undoes writing, and no text is empty. */
  ghost predicate DocumentsLawful(codec: DocumentCodec) {
    && (forall d :: codec.decode(codec.encode(d)) == Some(d))
    && (forall d :: |codec.encode(d)| > 0)
  }

  type Documents = map<string, Bytes>

  datatype FolderError =
    | AlreadyExists
    | DeviceError
    | MissingDocument
    | DamagedDocument
    | NotComplete
    | NotRestorable
    | HasIssues
    | VerificationDidNotPass

  // ---- what a folder has to hold to be opened ---------------------------------------------

  predicate IsRestorable(c: Completion) {
    c.state.Complete? && c.verification.result.Passed?
  }

  function DigestOf(documents: seq<DocumentDigest>, path: string): (d: Option<DocumentDigest>)
    ensures d.Some? ==> d.value in documents && d.value.path == path
    ensures d.None? ==> forall e :: e in documents ==> e.path != path
  {
    if documents == [] then None
    else if documents[0].path == path then Some(documents[0])
    else DigestOf(documents[1..], path)
  }

  predicate DigestSound(d: DocumentDigest) {
    IsSafeRelativePath(d.path) && d.bytes > 0
  }

  /** A sound completion document of a backup that may be restored. */
  ghost predicate CompletionOk(c: Completion) {
    && FormatOk(c.format, CompletionKind) && IsGuid(c.backupUuid) && c.completedUtc != "" && IsRestorable(c)
    && DigestOf(c.documents, MANIFEST_FILE).Some? && DigestOf(c.documents, LAYOUT_FILE).Some?
    && forall i :: 0 <= i < |c.documents| ==> DigestSound(c.documents[i])
  }

  predicate DigestMatches(codec: DocumentCodec, files: Documents, d: DocumentDigest) {
    IsSafeRelativePath(d.path) ==> d.path in files && |files[d.path]| == d.bytes && codec.name(files[d.path]) == d.hash
  }

  ghost predicate DigestsMatch(codec: DocumentCodec, files: Documents, c: Completion) {
    forall i :: 0 <= i < |c.documents| ==> DigestMatches(codec, files, c.documents[i])
  }

  ghost predicate ListedAreReadable(codec: DocumentCodec, unreadable: set<string>, c: Completion) {
    forall i :: 0 <= i < |c.documents| && IsSafeRelativePath(c.documents[i].path) ==> c.documents[i].path !in unreadable
  }

  /** Every file that opening the backup reads can be read. */
  ghost predicate Legible(codec: DocumentCodec, unreadable: set<string>, c: Completion) {
    NamesReadable(unreadable) && ListedAreReadable(codec, unreadable, c)
  }

  predicate NamesReadable(unreadable: set<string>) {
    MANIFEST_FILE !in unreadable && LAYOUT_FILE !in unreadable && COMPLETION_FILE !in unreadable
  }

  function Parsed(codec: DocumentCodec, files: Documents, name: string): Option<Document> {
    if name in files then codec.decode(files[name]) else None
  }

  /** The folder holds these documents under their names. */
  predicate HoldsDocuments(codec: DocumentCodec, files: Documents, m: Manifest, layout: DiskLayout, c: Completion) {
    && Parsed(codec, files, MANIFEST_FILE) == Some(ManifestDocument(m))
    && Parsed(codec, files, LAYOUT_FILE) == Some(LayoutDocument(layout))
    && Parsed(codec, files, COMPLETION_FILE) == Some(CompletionDocument(c))
  }

  /** Everything that opening a backup demands of its documents. */
  ghost predicate Openable(codec: DocumentCodec, files: Documents, m: Manifest, layout: DiskLayout, c: Completion) {
    && HoldsDocuments(codec, files, m, layout, c)
    && Accepted(m, layout, Some(c)) && CompletionOk(c) && DigestsMatch(codec, files, c)
  }

  ghost predicate Opens(codec: DocumentCodec, files: Documents) {
    exists m, layout, c :: Openable(codec, files, m, layout, c)
  }

  lemma HeldDocumentsAreUnique(codec: DocumentCodec, files: Documents, m: Manifest, layout: DiskLayout, c: Completion)
    requires HoldsDocuments(codec, files, m, layout, c)
    ensures Opens(codec, files) <==> Openable(codec, files, m, layout, c)
  {
  }

  // ---- what an open folder's digests are worth -------------------------------------------------

  /** In a folder that opens each listed document is there, as long and of the name recorded for it. */
  lemma OpenedDocumentsAreRecorded(codec: DocumentCodec, files: Documents, m: Manifest, layout: DiskLayout,
      c: Completion, i: nat)
    requires Openable(codec, files, m, layout, c) && i < |c.documents|
    ensures var d := c.documents[i];
            && d.path in files && |files[d.path]| == d.bytes > 0 && codec.name(files[d.path]) == d.hash
  {
    assert DigestSound(c.documents[i]) && DigestMatches(codec, files, c.documents[i]);
  }

  /** Names tell the texts apart. */
  ghost predicate NamesTell(codec: DocumentCodec, known: iset<Bytes>) {
    forall a, b :: a in known && b in known && codec.name(a) == codec.name(b) ==> a == b
  }

  /** The completion document lists the file, by the name of the text that is there. */
  ghost predicate ListedByName(codec: DocumentCodec, files: Documents, c: Completion, path: string) {
    path in files && exists i :: 0 <= i < |c.documents| && c.documents[i].path == path &&
                                 c.documents[i].hash == codec.name(files[path])
  }

  /** With another text in place of a listed document and the marker left alone, no folder opens. */
  lemma EditedDoesNotOpen(codec: DocumentCodec, files: Documents, c: Completion, known: iset<Bytes>, path: string,
      text: Bytes)
    requires Parsed(codec, files, COMPLETION_FILE) == Some(CompletionDocument(c)) && path != COMPLETION_FILE
    requires ListedByName(codec, files, c, path)
    requires NamesTell(codec, known) && files[path] in known && text in known && text != files[path]
    ensures !Opens(codec, files[path := text])
  {
    var edited := files[path := text];
    if m, layout, found :| Openable(codec, edited, m, layout, found) {
      var i :| 0 <= i < |c.documents| && c.documents[i].path == path && c.documents[i].hash == codec.name(files[path]);
      OpenedDocumentsAreRecorded(codec, edited, m, layout, found, i);
    }
  }

  /** Nor does one that a listed document has gone from. */
  lemma RemovedDoesNotOpen(codec: DocumentCodec, files: Documents, c: Completion, path: string)
    requires Parsed(codec, files, COMPLETION_FILE) == Some(CompletionDocument(c)) && path != COMPLETION_FILE
    requires ListedByName(codec, files, c, path)
    ensures !Opens(codec, files - {path})
  {
    var edited := files - {path};
    if m, layout, found :| Openable(codec, edited, m, layout, found) {
      var i :| 0 <= i < |c.documents| && c.documents[i].path == path && c.documents[i].hash == codec.name(files[path]);
      OpenedDocumentsAreRecorded(codec, edited, m, layout, found, i);
    }
  }

  /** Some text other than the file's, told apart by name. */
  ghost predicate IsEdit(codec: DocumentCodec, files: Documents, path: string, text: Bytes, known: iset<Bytes>) {
    NamesTell(codec, known) && path in files && files[path] in known && text in known && text != files[path]
  }

  /** No file of the folder but the marker can be edited or go missing unnoticed. */
  ghost predicate Sealed(codec: DocumentCodec, files: Documents) {
    forall path :: path in files && path != COMPLETION_FILE ==>
      && !Opens(codec, files - {path})
      && forall text, known :: IsEdit(codec, files, path, text, known) ==> !Opens(codec, files[path := text])
  }

  lemma ListedFilesAreSealed(codec: DocumentCodec, files: Documents, c: Completion)
    requires Parsed(codec, files, COMPLETION_FILE) == Some(CompletionDocument(c))
    requires forall path :: path in files && path != COMPLETION_FILE ==> ListedByName(codec, files, c, path)
    ensures Sealed(codec, files)
  {
    forall path | path in files && path != COMPLETION_FILE
      ensures !Opens(codec, files - {path})
      ensures forall text, known :: IsEdit(codec, files, path, text, known) ==> !Opens(codec, files[path := text])
    {
      RemovedDoesNotOpen(codec, files, c, path);
      forall text, known | IsEdit(codec, files, path, text, known)
        ensures !Opens(codec, files[path := text])
      {
        EditedDoesNotOpen(codec, files, c, known, path, text);
      }
    }
  }

  // ---- what a marker makes of a folder -------------------------------------------------------

  /** The digest is that of a whole document in the folder. */
  predicate Recorded(codec: DocumentCodec, files: Documents, d: DocumentDigest) {
    IsSafeRelativePath(d.path) && d.bytes > 0 && DigestMatches(codec, files, d)
  }

  ghost predicate AllRecorded(codec: DocumentCodec, files: Documents, documents: seq<DocumentDigest>) {
    forall i :: 0 <= i < |documents| ==> Recorded(codec, files, documents[i])
  }

  /** The manifest and the layout are in the folder, and nothing says yet what became of the run. */
  predicate HoldsBoth(codec: DocumentCodec, files: Documents, m: Manifest, layout: DiskLayout) {
    && COMPLETION_FILE !in files
    && Parsed(codec, files, MANIFEST_FILE) == Some(ManifestDocument(m))
    && Parsed(codec, files, LAYOUT_FILE) == Some(LayoutDocument(layout))
  }

  /** The completion document is about this manifest, and every document it lists is whole in the folder. */
  ghost predicate IsMarker(codec: DocumentCodec, files: Documents, m: Manifest, c: Completion) {
    && c.format == CurrentFormat(CompletionKind)
    && c.backupUuid == m.uuid && c.requiredRestoreBytes == m.requiredRestoreBytes
    && |c.documents| >= 2 && c.documents[0].path == MANIFEST_FILE && c.documents[1].path == LAYOUT_FILE
    && AllRecorded(codec, files, c.documents)
  }

  /** The folder once the completion document has been written. */
  function Marked(codec: DocumentCodec, files: Documents, c: Completion): Documents {
    files[COMPLETION_FILE := codec.encode(CompletionDocument(c))]
  }

  lemma NamesAreSafe()
    ensures IsSafeRelativePath(MANIFEST_FILE) && IsSafeRelativePath(LAYOUT_FILE)
  {
    SegmentIsSafePath(MANIFEST_FILE);
    SegmentIsSafePath(LAYOUT_FILE);
  }

  lemma MarkerIsSound(codec: DocumentCodec, files: Documents, m: Manifest, layout: DiskLayout, c: Completion)
    requires DocumentsLawful(codec) && HoldsBoth(codec, files, m, layout) && IsMarker(codec, files, m, c)
    ensures HoldsDocuments(codec, Marked(codec, files, c), m, layout, c)
    ensures CompletionOk(c) <==> IsGuid(m.uuid) && c.completedUtc != "" && IsRestorable(c)
    ensures DigestsMatch(codec, Marked(codec, files, c), c)
  {
    assert c.documents[0] in c.documents && c.documents[1] in c.documents;
  }

  /** With its marker a folder opens exactly if that tells of a passed run and the two documents are accepted. */
  lemma MarkedOpensIff(codec: DocumentCodec, files: Documents, m: Manifest, layout: DiskLayout, c: Completion)
    requires DocumentsLawful(codec) && HoldsBoth(codec, files, m, layout) && IsMarker(codec, files, m, c)
    ensures Openable(codec, Marked(codec, files, c), m, layout, c) <==>
            IsRestorable(c) && c.completedUtc != "" && Accepted(m, layout, None)
    ensures Opens(codec, Marked(codec, files, c)) <==> Openable(codec, Marked(codec, files, c), m, layout, c)
  {
    MarkerIsSound(codec, files, m, layout, c);
    HeldDocumentsAreUnique(codec, Marked(codec, files, c), m, layout, c);
    C.AgreeingCompletion(m, layout, c);
  }

  /** The digest recorded for a document when it is written. */
  function DigestFor(codec: DocumentCodec, name: string, document: Document): DocumentDigest
    requires |codec.encode(document)| <= U64_MAX
  {
    var bytes := codec.encode(document);
    DocumentDigest(name, codec.name(bytes), |bytes|)
  }

  /** The texts of the manifest and of the layout are within 64 bits. */
  predicate BothFit(codec: DocumentCodec, m: Manifest, layout: DiskLayout) {
    |codec.encode(ManifestDocument(m))| <= U64_MAX && |codec.encode(LayoutDocument(layout))| <= U64_MAX
  }

  /** A folder with nothing but the manifest and the layout. */
  function FolderOf(codec: DocumentCodec, m: Manifest, layout: DiskLayout): Documents {
    map[MANIFEST_FILE := codec.encode(ManifestDocument(m)), LAYOUT_FILE := codec.encode(LayoutDocument(layout))]
  }

  /** The completion document of a run that passed. */
  function CompletionFor(codec: DocumentCodec, m: Manifest, layout: DiskLayout, v: Verification, completedUtc: string)
    : Completion
    requires BothFit(codec, m, layout)
  {
    Completion(CurrentFormat(CompletionKind), m.uuid, Complete, completedUtc, v,
               [DigestFor(codec, MANIFEST_FILE, ManifestDocument(m)),
                DigestFor(codec, LAYOUT_FILE, LayoutDocument(layout))],
               m.requiredRestoreBytes)
  }

  lemma CompletionForIsMarker(codec: DocumentCodec, m: Manifest, layout: DiskLayout, v: Verification,
      completedUtc: string)
    requires DocumentsLawful(codec) && BothFit(codec, m, layout)
    ensures HoldsBoth(codec, FolderOf(codec, m, layout), m, layout)
    ensures IsMarker(codec, FolderOf(codec, m, layout), m, CompletionFor(codec, m, layout, v, completedUtc))
  {
    NamesAreSafe();
  }

  /** Accepted documents with the marker of a passed verification are a folder that opens. */
  lemma FolderOfOpens(codec: DocumentCodec, m: Manifest, layout: DiskLayout, v: Verification, completedUtc: string)
    requires DocumentsLawful(codec) && BothFit(codec, m, layout)
    requires v.result.Passed? && completedUtc != "" && Accepted(m, layout, None)
    ensures var c := CompletionFor(codec, m, layout, v, completedUtc);
            Openable(codec, Marked(codec, FolderOf(codec, m, layout), c), m, layout, c)
  {
    CompletionForIsMarker(codec, m, layout, v, completedUtc);
    MarkedOpensIff(codec, FolderOf(codec, m, layout), m, layout, CompletionFor(codec, m, layout, v, completedUtc));
  }

  /** A folder can open although two of its streams share bytes: a head over a partition. */
  lemma OpenedStreamsCanOverlap(codec: DocumentCodec) returns (files: Documents, c: Completion)
    requires DocumentsLawful(codec) && BothFit(codec, SmallManifest(), SmallLayout())
    ensures Openable(codec, files, SmallManifest(), SmallLayout(), c)
    ensures !V.StreamsDisjoint(SmallManifest().streams)
  {
    var m, layout := SmallManifest(), SmallLayout();
    var passed := Verification(Passed, 0, 0);
    AcceptedStreamsCanOverlap();
    c := CompletionFor(codec, m, layout, passed, "1970");
    FolderOfOpens(codec, m, layout, passed, "1970");
    files := Marked(codec, FolderOf(codec, m, layout), c);
  }

  // ---- checking a completion document -------------------------------------------------------

  /** Findings about a completion document on its own. */
  method ValidateCompletion(c: Completion) returns (findings: nat, warnings: nat)
    ensures warnings == Warnings(c.format)
    ensures findings == 0 <==> CompletionOk(c)
  {
    findings, warnings := CheckFormat(c.format, CompletionKind);
    var guid := LooksLikeGuid(c.backupUuid);
    if !guid {
      findings := findings + 1;
    }
    if c.completedUtc == "" {
      findings := findings + 1;
    }
    if DigestOf(c.documents, MANIFEST_FILE).None? {
      findings := findings + 1;
    }
    if DigestOf(c.documents, LAYOUT_FILE).None? {
      findings := findings + 1;
    }
    ghost var listed := findings == 0;
    for k := 0 to |c.documents|
      invariant findings == 0 <==> listed && forall i :: 0 <= i < k ==> DigestSound(c.documents[i])
    {
      if !IsSafeRelativePath(c.documents[k].path) {
        findings := findings + 1;
      }
      if c.documents[k].bytes == 0 {
        findings := findings + 1;
      }
    }
    match c.state {
      case Complete =>
        if !c.verification.result.Passed? {
          findings := findings + 1;
        }
      case Failed =>
        findings := findings + 1;
    }
  }

  predicate DigestChecks(codec: DocumentCodec, files: Documents, unreadable: set<string>, d: DocumentDigest) {
    DigestMatches(codec, files, d) && (IsSafeRelativePath(d.path) ==> d.path !in unreadable)
  }

  /** Compares the recorded digests with the files; unsafe paths are not followed. */
  method CheckDocumentDigests(codec: DocumentCodec, files: Documents, unreadable: set<string>, c: Completion)
    returns (findings: nat)
    ensures findings == 0 <==> DigestsMatch(codec, files, c) && ListedAreReadable(codec, unreadable, c)
  {
    findings := 0;
    for k := 0 to |c.documents|
      invariant findings == 0 <==> forall i :: 0 <= i < k ==> DigestChecks(codec, files, unreadable, c.documents[i])
    {
      var doc := c.documents[k];
      if IsSafeRelativePath(doc.path) {
        if doc.path !in files || doc.path in unreadable {
          findings := findings + 1;
        } else {
          if |files[doc.path]| != doc.bytes {
            findings := findings + 1;
          }
          if codec.name(files[doc.path]) != doc.hash {
            findings := findings + 1;
          }
        }
      }
    }
  }

  /** The files under final names: later renames replace earlier ones. */
  function FilesOf(renames: seq<(string, Bytes)>): Documents {
    if renames == [] then map[]
    else
      var last := renames[|renames| - 1];
      FilesOf(renames[..|renames| - 1])[last.0 := last.1]
  }

  // ---- the folder ------------------------------------------------------------------------------

  datatype BackupSet = BackupSet(
    manifest: Manifest, layout: DiskLayout, completion: Option<Completion>, findings: nat, warnings: nat)

  class Folder {
    const codec: DocumentCodec
    /** The drive may fail to write. */
    const faulty: bool
    /** Whether the folder is there at all. */
    var present: bool
    /** Files under their final names. */
    var files: Documents
    /** Files still under temporary names. */
    var temps: Documents
    /** Files the device fails to read. */
    var unreadable: set<string>
    /** Every rename onto a final name, in order. */
    ghost var renames: seq<(string, Bytes)>

    constructor (codec: DocumentCodec, faulty: bool)
      ensures Valid() && this.codec == codec && !present && files == map[] && temps == map[]
      ensures this.faulty == faulty
    {
      this.faulty := faulty;
      this.codec := codec;
      present := false;
      renames := [];
      files := map[];
      temps := map[];
      unreadable := {};
    }

    ghost predicate Valid()
      reads this
    {
      FilesOf(renames) == files && (!present ==> renames == [])
    }

    /** Makes a new folder, and refuses one that is there, whatever it holds. */
    method Create() returns (r: Result<(), FolderError>)
      requires Valid()
      modifies this`present
      ensures Valid() && (old(present) ==> present)
      ensures r == Failure(AlreadyExists) <==> old(present)
      ensures r.Success? ==> present && files == map[] && renames == []
      ensures r.Failure? && r.error != AlreadyExists ==> r.error == DeviceError && faulty
    {
      if present {
        return Failure(AlreadyExists);
      }
      var created := *;
      if faulty && !created {
        return Failure(DeviceError);
      }
      present := true;
      return Success(());
    }

    /**
     Writes a document by way of a temporary file. It appears whole under its name or
     not at all, and the digest returned is the one of what is there. No file is longer
     than 64 bits can say.
     */
    method WriteJsonAtomic(name: string, document: Document) returns (r: Result<DocumentDigest, FolderError>)
      requires DocumentsLawful(codec)
      modifies this`files, this`temps, this`renames
      ensures old(Valid()) && present ==> Valid()
      ensures r.Failure? ==> files == old(files) && renames == old(renames)
      ensures |codec.encode(document)| > U64_MAX ==> r.Failure?
      ensures r.Failure? ==> r.error == DeviceError && (faulty || |codec.encode(document)| > U64_MAX)
      ensures r.Success? ==> files == old(files)[name := codec.encode(document)]
      ensures r.Success? ==> renames == old(renames) + [(name, codec.encode(document))]
      ensures r.Success? ==> r.value.path == name && DigestMatches(codec, files, r.value) && r.value.bytes > 0
      ensures r.Success? ==> r.value.hash == codec.name(files[name]) && r.value.bytes == |files[name]|
    {
      var text := codec.encode(document);
      var created := *;
      if faulty && !created {
        return Failure(DeviceError);
      }
      var reached :| 0 <= reached <= |text|;
      temps := temps[name := text[..reached]];
      var wroteAll := *;
      if (faulty && !wroteAll) || |text| > U64_MAX {
        return Failure(DeviceError);
      }
      temps := temps[name := text];
      var renamed := *;
      if faulty && !renamed {
        var removed := *;
        if removed {
          temps := temps - {name};
        }
        return Failure(DeviceError);
      }
      files := files[name := temps[name]];
      renames := renames + [(name, temps[name])];
      temps := temps - {name};
      return Success(DocumentDigest(name, codec.name(text), |text|));
    }

    /** Reads and parses one document. */
    method ReadJson(name: string) returns (r: Result<Document, FolderError>)
      ensures r.Success? <==> name !in unreadable && Parsed(codec, files, name).Some?
      ensures r.Success? ==> Parsed(codec, files, name) == Some(r.value)
    {
      if name !in files {
        return Failure(MissingDocument);
      }
      if name in unreadable {
        return Failure(DeviceError);
      }
      var document := codec.decode(files[name]);
      return if document.None? then Failure(DamagedDocument) else Success(document.value);
    }

    /** The folder holds a manifest and a layout, and a completion document exactly if it parses as one. */
    ghost predicate Holds(backup: BackupSet)
      reads this
    {
      && Parsed(codec, files, MANIFEST_FILE) == Some(ManifestDocument(backup.manifest))
      && Parsed(codec, files, LAYOUT_FILE) == Some(LayoutDocument(backup.layout))
      && (COMPLETION_FILE in files <==> backup.completion.Some?)
      && (backup.completion.Some? ==>
            Parsed(codec, files, COMPLETION_FILE) == Some(CompletionDocument(backup.completion.value)))
    }

    /** Reads the documents, failing only when one cannot be read at all. */
    method ReadDocuments() returns (r: Result<(Manifest, DiskLayout, Option<Completion>), FolderError>)
      ensures r.Success? ==> Holds(BackupSet(r.value.0, r.value.1, r.value.2, 0, 0))
      ensures r.Success? && r.value.2.Some? ==> NamesReadable(unreadable)
      ensures r.Failure? && NamesReadable(unreadable) ==> !Opens(codec, files)
    {
      var manifest := ReadJson(MANIFEST_FILE);
      if manifest.Failure? {
        return Failure(manifest.error);
      }
      if !manifest.value.ManifestDocument? {
        return Failure(DamagedDocument);
      }
      var layout := ReadJson(LAYOUT_FILE);
      if layout.Failure? {
        return Failure(layout.error);
      }
      if !layout.value.LayoutDocument? {
        return Failure(DamagedDocument);
      }
      if COMPLETION_FILE !in files {
        return Success((manifest.value.manifest, layout.value.layout, None));
      }
      var completion := ReadJson(COMPLETION_FILE);
      if completion.Failure? {
        return Failure(completion.error);
      }
      if !completion.value.CompletionDocument? {
        return Failure(DamagedDocument);
      }
      return Success((manifest.value.manifest, layout.value.layout, Some(completion.value.completion)));
    }

    /** Reads the documents and collects everything there is to say against them. */
    method OpenUnchecked() returns (r: Result<BackupSet, FolderError>)
      ensures r.Success? ==>
                r.value.warnings == Warnings(r.value.manifest.format) + Warnings(r.value.layout.format) +
                  if r.value.completion.Some? then Warnings(r.value.completion.value.format) else 0
      ensures r.Success? ==> Holds(r.value)
      ensures r.Success? && r.value.completion.None? ==>
                (r.value.findings == 0 <==> Accepted(r.value.manifest, r.value.layout, None))
      ensures r.Success? && r.value.completion.Some? ==>
                (r.value.findings == 0 <==>
                  && Openable(codec, files, r.value.manifest, r.value.layout, r.value.completion.value)
                  && Legible(codec, unreadable, r.value.completion.value))
      ensures r.Failure? && NamesReadable(unreadable) ==> !Opens(codec, files)
    {
      var documents := ReadDocuments();
      if documents.Failure? {
        return Failure(documents.error);
      }
      var (m, layout, completion) := documents.value;
      var manifestIssues, warnings := M.ValidateManifest(m);
      var layoutIssues, layoutWarnings := L.ValidateLayout(layout);
      warnings := warnings + layoutWarnings;
      var crossIssues := C.CheckDocuments(m, layout, completion);
      var findings := |manifestIssues| + |layoutIssues| + |crossIssues|;
      if completion.Some? {
        var own, ownWarnings := ValidateCompletion(completion.value);
        warnings := warnings + ownWarnings;
        var digests := CheckDocumentDigests(codec, files, unreadable, completion.value);
        findings := findings + own + digests;
      }
      return Success(BackupSet(m, layout, completion, findings, warnings));
    }

    /** Opens the backup, and refuses it unless it is complete and sound. */
    method Open() returns (r: Result<BackupSet, FolderError>)
      ensures r.Success? ==>
                && r.value.completion.Some?
                && Openable(codec, files, r.value.manifest, r.value.layout, r.value.completion.value)
                && Legible(codec, unreadable, r.value.completion.value)
      ensures r.Failure? ==>
                forall m, layout, c :: Openable(codec, files, m, layout, c) ==> !Legible(codec, unreadable, c)
    {
      var unchecked := OpenUnchecked();
      if unchecked.Failure? {
        return unchecked;
      }
      var backup := unchecked.value;
      if backup.completion.None? {
        return Failure(NotComplete);
      }
      HeldDocumentsAreUnique(codec, files, backup.manifest, backup.layout, backup.completion.value);
      if !IsRestorable(backup.completion.value) {
        return Failure(NotRestorable);
      }
      if backup.findings > 0 {
        return Failure(HasIssues);
      }
      return Success(backup);
    }
  }
}
