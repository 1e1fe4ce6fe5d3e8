// The proof-upload widget (components/missions/ProofUpload.tsx): a fan picks a
// screenshot for an attempt, it is stored under a path made from the user and
// the attempt, and a pending proof row pointing at it is inserted.

module ProofUpload {
  import opened DatabaseTypes
  import opened Settlement

  /** A file chosen in the picker. */
  datatype SelectedFile = SelectedFile(name: string, bytes: seq<bv8>)

  /** `name.split('.').pop()`: the text after the last '.', or the whole name
      when it has no '.'. */
  function FileExtension(name: string): string {
    if name == [] then []
    else if name[|name| - 1] == '.' then []
    else FileExtension(name[..|name| - 1]) + [name[|name| - 1]]
  }

  /** The extension is a suffix of the name, free of '.', and either the whole
      name or preceded by '.'. */
  lemma {:induction false} ExtensionIsLastSegment(name: string)
    ensures var ext := FileExtension(name);
            |ext| <= |name| && ext == name[|name| - |ext|..] && '.' !in ext
            && (|ext| < |name| ==> name[|name| - |ext| - 1] == '.')
  {
    if name != [] && name[|name| - 1] != '.' {
      var init := name[..|name| - 1];
      ExtensionIsLastSegment(init);
      var e, c := FileExtension(init), name[|name| - 1];
      var k := |init| - |e|;
      assert name == init + [c];
      assert FileExtension(name) == e + [c];
      assert name[k..] == init[k..] + [c];
      assert '.' !in e + [c];
      if k > 0 {
        assert name[k - 1] == init[k - 1];
      }
    }
  }

  /** A name with no '.' is its own extension. */
  lemma NoDotIsWholeName(name: string)
    requires '.' !in name
    ensures FileExtension(name) == name
  {
    var ext := FileExtension(name);
    assert forall i | 0 <= i < |name| :: name[i] != '.';
  }

  /** The extension of `stem + "." + ext` is `ext` whenever `ext` has no '.'. */
  lemma {:induction false} ExtensionAfterDot(stem: string, ext: string)
    requires '.' !in ext
    ensures FileExtension(stem + "." + ext) == ext
    decreases |ext|
  {
    var whole := stem + "." + ext;
    if ext != [] {
      var init := ext[..|ext| - 1];
      assert whole[..|whole| - 1] == stem + "." + init;
      assert whole[|whole| - 1] == ext[|ext| - 1];
      ExtensionAfterDot(stem, init);
      assert init + [ext[|ext| - 1]] == ext;
    }
  }

  /** `${user.id}/${attemptId}.${fileExt}`. */
  function ProofPath(userId: string, attemptId: string, fileName: string): string {
    userId + "/" + attemptId + "." + FileExtension(fileName)
  }

  /** The stored object keeps the picked file's extension. */
  lemma ProofPathKeepsExtension(userId: string, attemptId: string, fileName: string)
    ensures FileExtension(ProofPath(userId, attemptId, fileName)) == FileExtension(fileName)
  {
    ExtensionIsLastSegment(fileName);
    ExtensionAfterDot(userId + "/" + attemptId, FileExtension(fileName));
  }

  /** The path depends on the user, the attempt and the extension only: two
      uploads for one attempt with files of the same type hit the same object. */
  lemma SameAttemptSamePath(userId: string, attemptId: string, first: string, second: string)
    requires FileExtension(first) == FileExtension(second)
    ensures ProofPath(userId, attemptId, first) == ProofPath(userId, attemptId, second)
  {
  }

  /** `upload(path, file, { upsert: true })`: writes the object, replacing any
      earlier object at that path. */
  function Upsert(objects: map<string, seq<bv8>>, path: string, bytes: seq<bv8>): (r: map<string, seq<bv8>>)
    ensures r.Keys == objects.Keys + {path}
    ensures r[path] == bytes
    ensures forall p | p in objects && p != path :: r[p] == objects[p]
  {
    objects[path := bytes]
  }

  /** Re-uploading to a path leaves only the latest bytes there. */
  lemma UpsertTwice(objects: map<string, seq<bv8>>, path: string, first: seq<bv8>, second: seq<bv8>)
    ensures Upsert(Upsert(objects, path, first), path, second) == Upsert(objects, path, second)
  {
    var lhs := Upsert(Upsert(objects, path, first), path, second);
    var rhs := Upsert(objects, path, second);
    assert lhs.Keys == rhs.Keys;
    forall p | p in lhs
      ensures lhs[p] == rhs[p]
    {
    }
  }

  /** The row `insert({ attempt_id, user_profile_id, file_path, type: 'screenshot',
      review_status: 'pending' })`; the id and `created_at` are the database's. */
  function NewProof(proofId: string, attemptId: string, userId: string, path: string, now: string): Proof {
    Proof(proofId, attemptId, userId, Some(path), ScreenshotProof, None, Pending, None, now)
  }

  /** A fresh proof of an attempt on one creator's mission shows on that
      creator's proofs screen. */
  lemma NewProofIsQueued(t: Tables, proofId: string, attemptId: string, userId: string, path: string,
                         now: string, creatorId: string)
    requires attemptId in t.attempts && t.attempts[attemptId].missionId in t.missions
    requires t.missions[t.attempts[attemptId].missionId].creatorId == creatorId
    ensures var row := NewProof(proofId, attemptId, userId, path, now);
            row.reviewStatus == Pending && row.proofType == ScreenshotProof && row.filePath == Some(path)
            && proofId in ProofQueue(t.(proofs := t.proofs[proofId := row]), creatorId)
  {
  }

  /** Every step of `handleUpload` succeeds: a file, a user, the upload and the insert. */
  predicate UploadSucceeds(proofs: map<string, Proof>, file: Option<SelectedFile>, user: Option<string>,
                           uploadFails: bool, insertFails: bool, newProofId: string) {
    file.Some? && user.Some? && !uploadFails && !insertFails && newProofId !in proofs
  }

  /** The bucket after `handleUpload`: the object is written once a file, a
      user and a working storage call are there. */
  function ObjectsAfterUpload(objects: map<string, seq<bv8>>, attemptId: string, file: Option<SelectedFile>,
                              user: Option<string>, uploadFails: bool): map<string, seq<bv8>> {
    if file.None? || user.None? || uploadFails then objects
    else Upsert(objects, ProofPath(user.value, attemptId, file.value.name), file.value.bytes)
  }

  /** The proofs table after `handleUpload`. */
  function ProofsAfterUpload(proofs: map<string, Proof>, attemptId: string, file: Option<SelectedFile>,
                             user: Option<string>, uploadFails: bool, insertFails: bool,
                             newProofId: string, now: string): map<string, Proof> {
    if UploadSucceeds(proofs, file, user, uploadFails, insertFails, newProofId)
    then proofs[newProofId := NewProof(newProofId, attemptId, user.value,
                                       ProofPath(user.value, attemptId, file.value.name), now)]
    else proofs
  }

  /** Without a file, a user or a working storage call nothing is written; the
      object is stored at the user/attempt path once the upload works; and one
      pending screenshot proof pointing at it is added, leaving every other row
      as it was, only when every step succeeds. */
  lemma UploadEffects(objects: map<string, seq<bv8>>, proofs: map<string, Proof>, attemptId: string,
                      file: Option<SelectedFile>, user: Option<string>, uploadFails: bool,
                      insertFails: bool, newProofId: string, now: string)
    ensures file.None? || user.None? || uploadFails ==>
              ObjectsAfterUpload(objects, attemptId, file, user, uploadFails) == objects
    ensures file.Some? && user.Some? && !uploadFails ==>
              var stored := ObjectsAfterUpload(objects, attemptId, file, user, uploadFails);
              var path := ProofPath(user.value, attemptId, file.value.name);
              stored.Keys == objects.Keys + {path} && stored[path] == file.value.bytes
    ensures !UploadSucceeds(proofs, file, user, uploadFails, insertFails, newProofId) ==>
              ProofsAfterUpload(proofs, attemptId, file, user, uploadFails, insertFails, newProofId, now) == proofs
    ensures UploadSucceeds(proofs, file, user, uploadFails, insertFails, newProofId) ==>
              var r := ProofsAfterUpload(proofs, attemptId, file, user, uploadFails, insertFails, newProofId, now);
              r.Keys == proofs.Keys + {newProofId}
              && (forall p | p in proofs :: r[p] == proofs[p])
              && r[newProofId].attemptId == attemptId && r[newProofId].userProfileId == user.value
              && r[newProofId].reviewStatus == Pending && r[newProofId].proofType == ScreenshotProof
              && r[newProofId].filePath == Some(ProofPath(user.value, attemptId, file.value.name))
  {
  }

  /** A proof row exists only where its object was stored: after a successful
      upload the new row's path names an object in the bucket holding the
      picked file's bytes. */
  lemma ProofPointsAtStoredObject(objects: map<string, seq<bv8>>, proofs: map<string, Proof>, attemptId: string,
                                  file: Option<SelectedFile>, user: Option<string>, uploadFails: bool,
                                  insertFails: bool, newProofId: string, now: string)
    requires UploadSucceeds(proofs, file, user, uploadFails, insertFails, newProofId)
    ensures var r := ProofsAfterUpload(proofs, attemptId, file, user, uploadFails, insertFails, newProofId, now);
            var stored := ObjectsAfterUpload(objects, attemptId, file, user, uploadFails);
            r[newProofId].filePath.Some? && r[newProofId].filePath.value in stored
            && stored[r[newProofId].filePath.value] == file.value.bytes
  {
    UploadEffects(objects, proofs, attemptId, file, user, uploadFails, insertFails, newProofId, now);
  }

  /** The `proofs` storage bucket. */
  class Bucket {
    var objects: map<string, seq<bv8>>

    constructor (objects: map<string, seq<bv8>>)
      ensures this.objects == objects
    {
      this.objects := objects;
    }
  }

  /** The widget's state for one attempt. */
  class ProofUploader {
    const attemptId: string
    const bucket: Bucket
    const db: Db
    var file: Option<SelectedFile>
    /** The picked file read back as a data URL. */
    var preview: Option<string>
    var uploading: bool
    var uploaded: bool

    constructor (attemptId: string, bucket: Bucket, db: Db)
      ensures this.attemptId == attemptId && this.bucket == bucket && this.db == db
      ensures file.None? && preview.None? && !uploading && !uploaded
    {
      this.attemptId := attemptId;
      this.bucket := bucket;
      this.db := db;
      file := None;
      preview := None;
      uploading := false;
      uploaded := false;
    }

    /** `handleFileChange`: an empty selection changes nothing; otherwise the
        file and its data-URL preview are kept. */
    method HandleFileChange(selected: Option<SelectedFile>, dataUrl: string)
      modifies this
      ensures selected.None? ==> file == old(file) && preview == old(preview)
      ensures selected.Some? ==> file == selected && preview == Some(dataUrl)
      ensures uploading == old(uploading) && uploaded == old(uploaded)
    {
      if selected.Some? {
        file := selected;
        preview := Some(dataUrl);
      }
    }

    /** `handleUpload` for the signed-in `user`, if any. The storage call fails
        when `uploadFails`; the insert fails when `insertFails` or when the id
        the database picks is already taken. */
    method HandleUpload(user: Option<string>, uploadFails: bool, insertFails: bool,
                        newProofId: string, now: string)
      modifies this, bucket, db
      ensures file == old(file) && preview == old(preview)
      ensures bucket.objects == ObjectsAfterUpload(old(bucket.objects), attemptId, old(file), user, uploadFails)
      ensures db.Snapshot() == old(db.Snapshot()).(proofs := ProofsAfterUpload(old(db.proofs), attemptId, old(file), user,
                                                                             uploadFails, insertFails, newProofId, now))
      ensures uploaded == (old(uploaded) || UploadSucceeds(old(db.proofs), old(file), user, uploadFails, insertFails, newProofId))
      // The spinner is off on every path that turned it on.
      ensures uploading == (old(uploading) && old(file).None?)
    {
      if file.None? {
        return;
      }
      uploading := true;
      if user.None? {
        uploading := false;
        return;
      }
      var inserted := StoreAndInsert(user.value, file.value, uploadFails, insertFails, newProofId, now);
      if inserted {
        uploaded := true;
      }
      uploading := false;
    }

    /** The storage call and the insert, for a picked file and a signed-in user. */
    method StoreAndInsert(userId: string, picked: SelectedFile, uploadFails: bool, insertFails: bool,
                          newProofId: string, now: string) returns (inserted: bool)
      modifies bucket, db
      ensures bucket.objects == ObjectsAfterUpload(old(bucket.objects), attemptId, Some(picked), Some(userId), uploadFails)
      ensures db.Snapshot() == old(db.Snapshot()).(proofs := ProofsAfterUpload(old(db.proofs), attemptId, Some(picked),
                                                                             Some(userId), uploadFails, insertFails,
                                                                             newProofId, now))
      ensures inserted == UploadSucceeds(old(db.proofs), Some(picked), Some(userId), uploadFails, insertFails, newProofId)
    {
      inserted := false;
      if uploadFails {
        return;
      }
      var path := ProofPath(userId, attemptId, picked.name);
      bucket.objects := Upsert(bucket.objects, path, picked.bytes);
      if insertFails || newProofId in db.proofs {
        return;
      }
      db.proofs := db.proofs[newProofId := NewProof(newProofId, attemptId, userId, path, now)];
      inserted := true;
    }
  }
}
