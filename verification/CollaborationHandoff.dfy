/** Collaborator handoff packages and feedback over an append-only lineage
    (n0te/collaboration_handoff.py). Triggers and the unique index are guards on every write. */
module CollaborationHandoff {
  import opened Prelude

  // ----- The lineage this store reads

  datatype Version = Version(song: string, ordinal: nat, assets: seq<string>)

  /** Songs and people carry the id of their artist; primary is the active profile. */
  datatype Lineage = Lineage(
    primary: string, songs: map<string, string>, versions: map<string, Version>, people: map<string, string>)

  predicate HasSong(l: Lineage, song: string) {
    song in l.songs && l.songs[song] == l.primary
  }

  predicate HasPerson(l: Lineage, person: string) {
    person in l.people && l.people[person] == l.primary
  }

  /** get_version finds versions of the active profile's songs. */
  predicate HasVersion(l: Lineage, version: string) {
    version in l.versions && HasSong(l, l.versions[version].song)
  }

  /** Lineage only grows, and a version and its assets never change. */
  predicate Extends(l: Lineage, l': Lineage) {
    && l.primary == l'.primary
    && (forall s :: s in l.songs ==> s in l'.songs && l'.songs[s] == l.songs[s])
    && (forall v :: v in l.versions ==> v in l'.versions && l'.versions[v] == l.versions[v])
    && (forall p :: p in l.people ==> p in l'.people && l'.people[p] == l.people[p])
  }

  // ----- Tables

  datatype Role = View | Review | Contribute | UnsupportedRole

  datatype PackageState = Prepared | Revoked

  datatype Package = Package(
    id: string, artist: string, song: string, version: string, person: string, role: Role,
    labelText: Option<string>, state: PackageState, reason: Option<string>)

  datatype FeedbackState = Open | Addressed | Dismissed

  datatype Feedback = Feedback(
    id: string, package: string, artist: string, song: string, version: string, person: string,
    position: Option<int>, body: string, state: FeedbackState, response: Option<string>, note: Option<string>)

  datatype Event =
    | PackagePrepared(id: string) | PackageRevoked(id: string)
    | FeedbackRecorded(id: string) | FeedbackAddressed(id: string) | FeedbackDismissed(id: string)

  datatype Tables = Tables(packages: seq<Package>, feedback: seq<Feedback>, events: seq<Event>)

  datatype Error =
    | BadInput | NotFound | WrongSong | NoAssets | AlreadyPrepared | AlreadyRevoked | PackageNotPrepared
    | MissingResponse | UnexpectedResponse | NotLater | AlreadyResolved | WriteRefused

  const MAX_LABEL := 240
  const MAX_NOTE := 2000
  const MAX_BODY := 8000
  const MAX_POSITION := 24 * 60 * 60 * 1000

  predicate RequiredText(text: string, maximum: nat) {
    text != "" && |text| <= maximum
  }

  predicate PositionOk(position: Option<int>) {
    position.Some? ==> 0 <= position.value <= MAX_POSITION
  }

  predicate LabelOk(labelText: Option<string>) {
    labelText.Some? ==> |labelText.value| <= MAX_LABEL
  }

  function PackageId(p: Package): string {
    p.id
  }

  function FeedbackId(f: Feedback): string {
    f.id
  }

  function Key(p: Package): (string, string, string) {
    (p.song, p.version, p.person)
  }

  // ----- Write guards

  /** The triggers, checks and unique index an INSERT of a package must pass. */
  predicate MayInsertPackage(l: Lineage, packages: seq<Package>, p: Package) {
    && p.person in l.people && l.people[p.person] == p.artist
    && p.version in l.versions && l.versions[p.version].song == p.song
    && p.song in l.songs && l.songs[p.song] == p.artist && l.versions[p.version].assets != []
    && p.role != UnsupportedRole && p.labelText != Some("") && p.reason != Some("")
    && (forall i :: 0 <= i < |packages| ==> packages[i].id != p.id)
    && (p.state == Prepared ==>
          forall i :: 0 <= i < |packages| && packages[i].state == Prepared ==> Key(packages[i]) != Key(p))
  }

  predicate MayUpdatePackage(before: Package, after: Package) {
    && after.(state := before.state, reason := before.reason) == before
    && before.state == Prepared && after.state == Revoked && after.reason.Some? && after.reason.value != ""
  }

  predicate MayInsertFeedback(packages: seq<Package>, feedback: seq<Feedback>, f: Feedback) {
    && (exists i :: 0 <= i < |packages| && packages[i].id == f.package && packages[i].state == Prepared
          && Bound(f, packages[i]))
    && (forall i :: 0 <= i < |feedback| ==> feedback[i].id != f.id)
    && PositionOk(f.position) && f.body != "" && f.note != Some("")
  }

  predicate MayUpdateFeedback(l: Lineage, before: Feedback, after: Feedback) {
    && after.(state := before.state, response := before.response, note := before.note) == before
    && before.state == Open && after.state != Open && after.note.Some? && after.note.value != ""
    && (after.state == Addressed <==> after.response.Some?)
    && (after.state == Addressed ==>
          && after.response.value in l.versions && before.version in l.versions
          && l.versions[after.response.value].song == before.song
          && l.versions[after.response.value].ordinal > l.versions[before.version].ordinal)
  }

  /** The feedback repeats its package's attribution. */
  predicate Bound(f: Feedback, p: Package) {
    f.artist == p.artist && f.song == p.song && f.version == p.version && f.person == p.person
  }

  // ----- What the loader accepts

  predicate PackageOk(l: Lineage, p: Package) {
    && p.artist == l.primary && p.song in l.songs && l.songs[p.song] == p.artist
    && HasVersion(l, p.version) && l.versions[p.version].song == p.song
    && p.person in l.people && l.people[p.person] == p.artist
    && l.versions[p.version].assets != [] && p.role != UnsupportedRole && LabelOk(p.labelText)
    && (p.state == Prepared <==> p.reason.None?)
  }

  predicate FeedbackOk(l: Lineage, packages: seq<Package>, f: Feedback) {
    && Find(PackageId, packages, f.package).Some?
    && Bound(f, packages[Find(PackageId, packages, f.package).value])
    && PositionOk(f.position) && RequiredText(f.body, MAX_BODY)
    && match f.state
       case Open => f.response.None? && f.note.None?
       case Dismissed => f.response.None? && f.note.Some? && RequiredText(f.note.value, MAX_NOTE)
       case Addressed =>
         && f.note.Some? && RequiredText(f.note.value, MAX_NOTE) && f.response.Some?
         && HasVersion(l, f.response.value) && HasVersion(l, f.version)
         && l.versions[f.response.value].song == f.song
         && l.versions[f.response.value].ordinal > l.versions[f.version].ordinal
  }

  predicate OnePreparedEach(packages: seq<Package>) {
    forall i, j :: 0 <= i < j < |packages| && packages[i].state == Prepared && packages[j].state == Prepared ==>
      Key(packages[i]) != Key(packages[j])
  }

  predicate Loadable(l: Lineage, t: Tables) {
    && (forall i :: 0 <= i < |t.packages| ==> PackageOk(l, t.packages[i]))
    && OnePreparedEach(t.packages)
    && forall i :: 0 <= i < |t.feedback| ==> FeedbackOk(l, t.packages, t.feedback[i])
  }

  /** _validate_existing: one pass over each table, with a set of the prepared keys seen so far. */
  method ValidateExisting(l: Lineage, t: Tables) returns (ok: bool)
    ensures ok == Loadable(l, t)
  {
    hide PackageOk, FeedbackOk;
    var activeSeen: set<(string, string, string)> := {};
    for i := 0 to |t.packages|
      invariant forall k :: 0 <= k < i ==> PackageOk(l, t.packages[k])
      invariant forall k :: 0 <= k < i && t.packages[k].state == Prepared ==> Key(t.packages[k]) in activeSeen
      invariant forall key :: key in activeSeen ==>
        exists k :: 0 <= k < i && t.packages[k].state == Prepared && Key(t.packages[k]) == key
      invariant OnePreparedEach(t.packages[..i])
    {
      var package := t.packages[i];
      if !PackageOk(l, package) {
        return false;
      }
      if package.state == Prepared {
        if Key(package) in activeSeen {
          return false;
        }
        activeSeen := activeSeen + {Key(package)};
      }
      assert t.packages[..i + 1] == t.packages[..i] + [package];
    }
    assert t.packages[..|t.packages|] == t.packages;
    for i := 0 to |t.feedback|
      invariant forall k :: 0 <= k < i ==> FeedbackOk(l, t.packages, t.feedback[k])
    {
      if !FeedbackOk(l, t.packages, t.feedback[i]) {
        return false;
      }
    }
    return true;
  }

  // ----- Operations

  datatype PackageRequest = PackageRequest(
    song: string, version: string, person: string, role: Role, labelText: Option<string>)

  function NewPackage(l: Lineage, req: PackageRequest, id: string): Package {
    Package(id, l.primary, req.song, req.version, req.person, req.role,
            if req.labelText == Some("") then None else req.labelText, Prepared, None)
  }

  function Prepare(l: Lineage, t: Tables, req: PackageRequest, id: string): (Tables, Result<Package, Error>) {
    var p := NewPackage(l, req, id);
    if req.role == UnsupportedRole || !LabelOk(req.labelText) then (t, Failure(BadInput))
    else if !HasSong(l, req.song) || !HasVersion(l, req.version) then (t, Failure(NotFound))
    else if l.versions[req.version].song != req.song then (t, Failure(WrongSong))
    else if l.versions[req.version].assets == [] then (t, Failure(NoAssets))
    else if !HasPerson(l, req.person) then (t, Failure(NotFound))
    else if !MayInsertPackage(l, t.packages, p) then (t, Failure(AlreadyPrepared))
    else (t.(packages := t.packages + [p], events := t.events + [PackagePrepared(id)]), Success(p))
  }

  function Revoke(t: Tables, id: string, reason: string): (Tables, Result<Package, Error>) {
    var at := Find(PackageId, t.packages, id);
    if !RequiredText(reason, MAX_NOTE) then (t, Failure(BadInput))
    else if at.None? then (t, Failure(NotFound))
    else
      var current := t.packages[at.value];
      var revoked := current.(state := Revoked, reason := Some(reason));
      if current.state == Revoked then
        (t, if current.reason == Some(reason) then Success(current) else Failure(AlreadyRevoked))
      else if !MayUpdatePackage(current, revoked) then (t, Failure(WriteRefused))
      else
        (t.(packages := t.packages[at.value := revoked], events := t.events + [PackageRevoked(id)]),
         Success(revoked))
  }

  function Record(t: Tables, package: string, body: string, position: Option<int>, id: string)
    : (Tables, Result<Feedback, Error>)
  {
    var at := Find(PackageId, t.packages, package);
    if !RequiredText(body, MAX_BODY) || !PositionOk(position) then (t, Failure(BadInput))
    else if at.None? then (t, Failure(NotFound))
    else
      var p := t.packages[at.value];
      var f := Feedback(id, p.id, p.artist, p.song, p.version, p.person, position, body, Open, None, None);
      if p.state != Prepared then (t, Failure(PackageNotPrepared))
      else if !MayInsertFeedback(t.packages, t.feedback, f) then (t, Failure(WriteRefused))
      else (t.(feedback := t.feedback + [f], events := t.events + [FeedbackRecorded(id)]), Success(f))
  }

  function ResponseError(l: Lineage, current: Feedback, outcome: FeedbackState, response: Option<string>)
    : Option<Error>
  {
    if outcome != Addressed then if response.Some? then Some(UnexpectedResponse) else None
    else if response.None? then Some(MissingResponse)
    else if !HasVersion(l, response.value) || !HasVersion(l, current.version) then Some(NotFound)
    else if l.versions[response.value].song != current.song then Some(WrongSong)
    else if l.versions[response.value].ordinal <= l.versions[current.version].ordinal then Some(NotLater)
    else None
  }

  function Resolve(l: Lineage, t: Tables, id: string, outcome: FeedbackState, note: string, response: Option<string>)
    : (Tables, Result<Feedback, Error>)
  {
    var at := Find(FeedbackId, t.feedback, id);
    if outcome == Open || !RequiredText(note, MAX_NOTE) then (t, Failure(BadInput))
    else if at.None? then (t, Failure(NotFound))
    else
      var current := t.feedback[at.value];
      var resolved := current.(state := outcome, response := response, note := Some(note));
      var error := ResponseError(l, current, outcome, response);
      if error.Some? then (t, Failure(error.value))
      else if current.state != Open then (t, if current == resolved then Success(current) else Failure(AlreadyResolved))
      else if !MayUpdateFeedback(l, current, resolved) then (t, Failure(WriteRefused))
      else
        (t.(feedback := t.feedback[at.value := resolved],
            events := t.events + [if outcome == Addressed then FeedbackAddressed(id) else FeedbackDismissed(id)]),
         Success(resolved))
  }

  class CollaborationHandoffMemory {
    var packages: seq<Package>
    var feedback: seq<Feedback>
    var events: seq<Event>

    constructor ()
      ensures View() == Tables([], [], [])
    {
      packages, feedback, events := [], [], [];
    }

    ghost function View(): Tables
      reads this
    {
      Tables(packages, feedback, events)
    }

    /** The id is the fresh uuid of the new row. */
    method PreparePackage(l: Lineage, req: PackageRequest, id: string) returns (r: Result<Package, Error>)
      modifies this
      ensures (View(), r) == Prepare(l, old(View()), req, id)
    {
      hide MayInsertPackage;
      if req.role == UnsupportedRole || !LabelOk(req.labelText) {
        return Failure(BadInput);
      }
      if !HasSong(l, req.song) || !HasVersion(l, req.version) {
        return Failure(NotFound);
      }
      if l.versions[req.version].song != req.song {
        return Failure(WrongSong);
      }
      if l.versions[req.version].assets == [] {
        return Failure(NoAssets);
      }
      if !HasPerson(l, req.person) {
        return Failure(NotFound);
      }
      var labelText := if req.labelText == Some("") then None else req.labelText;
      var package := Package(id, l.primary, req.song, req.version, req.person, req.role, labelText, Prepared, None);
      if !MayInsertPackage(l, packages, package) {
        return Failure(AlreadyPrepared);
      }
      packages := packages + [package];
      events := events + [PackagePrepared(id)];
      return Success(package);
    }

    /** revoke_package. */
    method RevokePackage(id: string, reason: string) returns (r: Result<Package, Error>)
      modifies this
      ensures (View(), r) == Revoke(old(View()), id, reason)
    {
      if !RequiredText(reason, MAX_NOTE) {
        return Failure(BadInput);
      }
      var at := Find(PackageId, packages, id);
      if at.None? {
        return Failure(NotFound);
      }
      var current := packages[at.value];
      if current.state == Revoked {
        return if current.reason == Some(reason) then Success(current) else Failure(AlreadyRevoked);
      }
      var revoked := current.(state := Revoked, reason := Some(reason));
      if !MayUpdatePackage(current, revoked) {
        return Failure(WriteRefused);
      }
      packages := packages[at.value := revoked];
      events := events + [PackageRevoked(id)];
      return Success(revoked);
    }

    /** record_feedback; the id is the fresh uuid of the new row. */
    method RecordFeedback(package: string, body: string, position: Option<int>, id: string)
      returns (r: Result<Feedback, Error>)
      modifies this
      ensures (View(), r) == Record(old(View()), package, body, position, id)
    {
      hide MayInsertFeedback;
      if !RequiredText(body, MAX_BODY) || !PositionOk(position) {
        return Failure(BadInput);
      }
      var at := Find(PackageId, packages, package);
      if at.None? {
        return Failure(NotFound);
      }
      var p := packages[at.value];
      if p.state != Prepared {
        return Failure(PackageNotPrepared);
      }
      var f := Feedback(id, p.id, p.artist, p.song, p.version, p.person, position, body, Open, None, None);
      if !MayInsertFeedback(packages, feedback, f) {
        return Failure(WriteRefused);
      }
      feedback := feedback + [f];
      events := events + [FeedbackRecorded(id)];
      return Success(f);
    }

    /** resolve_feedback. */
    method ResolveFeedback(l: Lineage, id: string, outcome: FeedbackState, note: string, response: Option<string>)
      returns (r: Result<Feedback, Error>)
      modifies this
      ensures (View(), r) == Resolve(l, old(View()), id, outcome, note, response)
    {
      hide MayUpdateFeedback, HasVersion;
      if outcome == Open || !RequiredText(note, MAX_NOTE) {
        return Failure(BadInput);
      }
      var at := Find(FeedbackId, feedback, id);
      if at.None? {
        return Failure(NotFound);
      }
      var current := feedback[at.value];
      var error := ResponseError(l, current, outcome, response);
      if error.Some? {
        return Failure(error.value);
      }
      if current.state != Open {
        if current.state == outcome && current.note == Some(note) && current.response == response {
          return Success(current);
        }
        return Failure(AlreadyResolved);
      }
      var resolved := current.(state := outcome, response := response, note := Some(note));
      if !MayUpdateFeedback(l, current, resolved) {
        return Failure(WriteRefused);
      }
      feedback := feedback[at.value := resolved];
      events := events + [if outcome == Addressed then FeedbackAddressed(id) else FeedbackDismissed(id)];
      return Success(resolved);
    }
  }
}
