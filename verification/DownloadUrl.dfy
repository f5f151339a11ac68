/**
 The one field the API layer fills in, `download_url`, filled by two separate pieces of code: on the
 view, and on the JSON of an object or a delta that the view became.
 */
module DownloadUrl {
  import opened Prelude

  /** The member names the two fillers look at; every other one is an `OtherKey`. */
  datatype Key =
    | IdKey | FilenameKey | UrlKey | ChaptersKey | SubtitlesKey | SelectionKey
    | TypeKey | SizeKey | LangKey | OtherKey(name: string)

  datatype Json =
    | Null
    | Bool(b: bool)
    | Num(n: int)
    | Str(s: string)
    | Arr(items: seq<Json>)
    | Obj(members: map<Key, Json>)

  datatype DownloadType = Video | Audio | Captions | Thumbnail {
    function Name(): string {
      match this
      case Video => "video"
      case Audio => "audio"
      case Captions => "captions"
      case Thumbnail => "thumbnail"
    }
  }

  function FromName(s: string): Option<DownloadType> {
    if s == "video" then Some(Video)
    else if s == "audio" then Some(Audio)
    else if s == "captions" then Some(Captions)
    else if s == "thumbnail" then Some(Thumbnail)
    else None
  }

  lemma NameRoundTrip(dt: DownloadType)
    ensures FromName(dt.Name()) == Some(dt)
  {
    assert |"video"| == 5 && |"audio"| == 5 && |"captions"| == 8 && |"thumbnail"| == 9;
    assert "video"[0] == 'v' && "audio"[0] == 'a';
  }

  /** `public_url`: the configured prefix and the encoded path; any function of the two will do here. */
  type PublicUrl = (string, DownloadType) -> string

  datatype FileRef = FileRef(filename: string, size: Option<nat>, downloadUrl: Option<string>, lang: Option<string>)

  /**
   An item view. `state` holds the other fields that a delta may carry and `frozen` those it may not,
   each already as JSON.
   */
  datatype ItemView = ItemView(
    id: string, filename: Option<string>, downloadUrl: Option<string>,
    chapterFiles: seq<FileRef>, subtitleFiles: seq<FileRef>,
    downloadType: DownloadType, selection: map<Key, Json>,
    state: map<Key, Json>, frozen: map<Key, Json>)

  predicate WellFormed(v: ItemView) {
    && (forall k :: k in v.state ==> k.OtherKey?) && (forall k :: k in v.frozen ==> k.OtherKey?)
    && v.state.Keys !! v.frozen.Keys
  }

  // -- serialisation ------------------------------------------------------------------------

  function TextOrNull(s: Option<string>): Json { if s.Some? then Str(s.value) else Null }

  function SerialiseFile(f: FileRef): Json {
    Obj(map[FilenameKey := Str(f.filename),
            SizeKey := if f.size.Some? then Num(f.size.value) else Null,
            UrlKey := TextOrNull(f.downloadUrl),
            LangKey := TextOrNull(f.lang)])
  }

  function SerialiseFiles(files: seq<FileRef>): Json {
    Arr(seq(|files|, i requires 0 <= i < |files| => SerialiseFile(files[i])))
  }

  function SerialiseSelection(v: ItemView): Json {
    Obj(v.selection[TypeKey := Str(v.downloadType.Name())])
  }

  const NAMED := {IdKey, FilenameKey, UrlKey, ChaptersKey, SubtitlesKey, SelectionKey}

  function Keys(v: ItemView): set<Key> { NAMED + v.state.Keys + v.frozen.Keys }

  function Field(v: ItemView, k: Key): Json
    requires k in Keys(v)
  {
    match k
    case IdKey => Str(v.id)
    case FilenameKey => TextOrNull(v.filename)
    case UrlKey => TextOrNull(v.downloadUrl)
    case ChaptersKey => SerialiseFiles(v.chapterFiles)
    case SubtitlesKey => SerialiseFiles(v.subtitleFiles)
    case SelectionKey => SerialiseSelection(v)
    case _ => if k in v.state then v.state[k] else v.frozen[k]
  }

  function Members(v: ItemView): map<Key, Json> {
    map k | k in Keys(v) :: Field(v, k)
  }

  function Serialise(v: ItemView): Json { Obj(Members(v)) }

  // -- the filler on views ---------------------------------------------------------------------

  function ProjectFile(url: PublicUrl, f: FileRef, dt: DownloadType): FileRef {
    f.(downloadUrl := Some(url(f.filename, dt)))
  }

  function ProjectFiles(url: PublicUrl, files: seq<FileRef>, dt: DownloadType): seq<FileRef> {
    seq(|files|, i requires 0 <= i < |files| => ProjectFile(url, files[i], dt))
  }

  predicate HasFiles(v: ItemView) { v.chapterFiles != [] || v.subtitleFiles != [] }

  function Project(url: PublicUrl, v: ItemView): ItemView {
    if v.filename == None && !HasFiles(v) then v
    else
      var dt := v.downloadType;
      var named := v.(downloadUrl := if v.filename.Some? then Some(url(v.filename.value, dt)) else None);
      if HasFiles(v) then
        named.(chapterFiles := ProjectFiles(url, v.chapterFiles, dt),
               subtitleFiles := ProjectFiles(url, v.subtitleFiles, dt))
      else named
  }

  // -- the filler on JSON ------------------------------------------------------------------------

  /** Gives an object with a file name its URL, in place. */
  function FillObject(url: PublicUrl, members: map<Key, Json>, dt: DownloadType): map<Key, Json> {
    if FilenameKey in members && members[FilenameKey].Str?
    then members[UrlKey := Str(url(members[FilenameKey].s, dt))]
    else members
  }

  function FillEntry(url: PublicUrl, entry: Json, dt: DownloadType): Json {
    if entry.Obj? then Obj(FillObject(url, entry.members, dt)) else entry
  }

  function FillEntries(url: PublicUrl, entries: seq<Json>, dt: DownloadType): seq<Json> {
    seq(|entries|, i requires 0 <= i < |entries| => FillEntry(url, entries[i], dt))
  }

  function FillList(url: PublicUrl, members: map<Key, Json>, list: Key, dt: DownloadType): map<Key, Json> {
    if list in members && members[list].Arr?
    then members[list := Arr(FillEntries(url, members[list].items, dt))]
    else members
  }

  function PatchWith(url: PublicUrl, item: Json, dt: DownloadType): Json {
    if !item.Obj? then item
    else
      var named := FillObject(url, item.members, dt);
      Obj(FillList(url, FillList(url, named, ChaptersKey, dt), SubtitlesKey, dt))
  }

  /** The download type an object states for itself. */
  function StatedType(item: Json): DownloadType {
    if item.Obj? && SelectionKey in item.members && item.members[SelectionKey].Obj? then
      var selection := item.members[SelectionKey].members;
      if TypeKey in selection && selection[TypeKey].Str?
      then FromName(selection[TypeKey].s).GetOr(Video)
      else Video
    else Video
  }

  predicate States(item: Json, dt: DownloadType) {
    && item.Obj? && SelectionKey in item.members && item.members[SelectionKey].Obj?
    && TypeKey in item.members[SelectionKey].members
    && item.members[SelectionKey].members[TypeKey] == Str(dt.Name())
  }

  /** An object has the type it states, and is a video if it states none that is known. */
  lemma StatedOrVideo(item: Json, dt: DownloadType)
    ensures StatedType(item) == dt <==> States(item, dt) || (dt.Video? && forall d :: !States(item, d))
  {
    if States(item, dt) {
      StatedIs(item, dt);
    } else if d :| States(item, d) {
      StatedIs(item, d);
    } else if !StatedType(item).Video? {
      assert States(item, StatedType(item));
    }
  }

  lemma StatedIs(item: Json, dt: DownloadType)
    requires States(item, dt)
    ensures StatedType(item) == dt
  {
    NameRoundTrip(dt);
  }

  function PatchItem(url: PublicUrl, item: Json): Json { PatchWith(url, item, StatedType(item)) }

  /** A delta does not carry the selection, so the type comes from the published view, if there is one. */
  function PatchDelta(url: PublicUrl, patch: Json, published: Option<DownloadType>): Json {
    if patch.Obj?
       && ((FilenameKey in patch.members && patch.members[FilenameKey].Str?)
           || ChaptersKey in patch.members || SubtitlesKey in patch.members)
    then PatchWith(url, patch, published.GetOr(Video))
    else patch
  }

  method FillFiles(url: PublicUrl, entries: seq<Json>, dt: DownloadType) returns (files: seq<Json>)
    ensures files == FillEntries(url, entries, dt)
  {
    files := entries;
    for i := 0 to |entries|
      invariant |files| == |entries|
      invariant forall j :: 0 <= j < |entries| ==>
        files[j] == if j < i then FillEntry(url, entries[j], dt) else entries[j]
    {
      var entry := files[i];
      if entry.Obj? && FilenameKey in entry.members && entry.members[FilenameKey].Str? {
        var u := url(entry.members[FilenameKey].s, dt);
        files := files[i := Obj(entry.members[UrlKey := Str(u)])];
      }
    }
  }

  method PatchItemWith(url: PublicUrl, members: map<Key, Json>, dt: DownloadType) returns (m: map<Key, Json>)
    ensures Obj(m) == PatchWith(url, Obj(members), dt)
  {
    m := members;
    if FilenameKey in m && m[FilenameKey].Str? {
      m := m[UrlKey := Str(url(m[FilenameKey].s, dt))];
    }
    if ChaptersKey in m && m[ChaptersKey].Arr? {
      var files := FillFiles(url, m[ChaptersKey].items, dt);
      m := m[ChaptersKey := Arr(files)];
    }
    if SubtitlesKey in m && m[SubtitlesKey].Arr? {
      var files := FillFiles(url, m[SubtitlesKey].items, dt);
      m := m[SubtitlesKey := Arr(files)];
    }
  }

  // -- the two agree --------------------------------------------------------------------------------

  lemma FileAgrees(url: PublicUrl, f: FileRef, dt: DownloadType)
    ensures FillEntry(url, SerialiseFile(f), dt) == SerialiseFile(ProjectFile(url, f, dt))
  {}

  lemma FilesAgree(url: PublicUrl, files: seq<FileRef>, dt: DownloadType)
    ensures Arr(FillEntries(url, SerialiseFiles(files).items, dt)) == SerialiseFiles(ProjectFiles(url, files, dt))
  {
    forall i | 0 <= i < |files| {
      FileAgrees(url, files[i], dt);
    }
    assert FillEntries(url, SerialiseFiles(files).items, dt) == SerialiseFiles(ProjectFiles(url, files, dt)).items;
  }

  lemma FillListMeans(url: PublicUrl, m: map<Key, Json>, list: Key, files: seq<FileRef>, dt: DownloadType)
    requires list in m ==> m[list] == SerialiseFiles(files)
    ensures FillList(url, m, list, dt) ==
            if list in m then m[list := SerialiseFiles(ProjectFiles(url, files, dt))] else m
  {
    FilesAgree(url, files, dt);
  }

  predicate Names(m: map<Key, Json>) { FilenameKey in m && m[FilenameKey].Str? }

  /** What the filler makes of an object, member by member, where its two lists are known. */
  lemma PatchWithMeans(
    url: PublicUrl, m: map<Key, Json>, chapters: seq<FileRef>, subtitles: seq<FileRef>, dt: DownloadType)
    requires ChaptersKey in m ==> m[ChaptersKey] == SerialiseFiles(chapters)
    requires SubtitlesKey in m ==> m[SubtitlesKey] == SerialiseFiles(subtitles)
    ensures var p := PatchWith(url, Obj(m), dt);
      && p.Obj? && p.members.Keys == m.Keys + (if Names(m) then {UrlKey} else {})
      && forall k :: k in p.members ==>
           p.members[k] ==
           if k == ChaptersKey then SerialiseFiles(ProjectFiles(url, chapters, dt))
           else if k == SubtitlesKey then SerialiseFiles(ProjectFiles(url, subtitles, dt))
           else if k == UrlKey && Names(m) then Str(url(m[FilenameKey].s, dt))
           else m[k]
  {
    var named := FillObject(url, m, dt);
    var listed := FillList(url, named, ChaptersKey, dt);
    FillListMeans(url, named, ChaptersKey, chapters, dt);
    FillListMeans(url, listed, SubtitlesKey, subtitles, dt);
  }

  lemma StatesItsType(v: ItemView)
    ensures StatedType(Serialise(v)) == v.downloadType
  {
    NameRoundTrip(v.downloadType);
  }

  /** The view with every URL filled that a file name allows. */
  function Filled(url: PublicUrl, v: ItemView): ItemView {
    var named := v.(
      downloadUrl := if v.filename.Some? then Some(url(v.filename.value, v.downloadType)) else v.downloadUrl);
    named.(chapterFiles := ProjectFiles(url, v.chapterFiles, v.downloadType))
         .(subtitleFiles := ProjectFiles(url, v.subtitleFiles, v.downloadType))
  }

  lemma FilledField(url: PublicUrl, v: ItemView, k: Key)
    requires k in Keys(v)
    ensures Keys(Filled(url, v)) == Keys(v)
    ensures Field(Filled(url, v), k) ==
            if k == ChaptersKey then SerialiseFiles(ProjectFiles(url, v.chapterFiles, v.downloadType))
            else if k == SubtitlesKey then SerialiseFiles(ProjectFiles(url, v.subtitleFiles, v.downloadType))
            else if k == UrlKey && v.filename.Some? then Str(url(v.filename.value, v.downloadType))
            else Field(v, k)
  {}

  lemma MembersMean(v: ItemView, k: Key)
    ensures Members(v).Keys == Keys(v)
    ensures k in Keys(v) ==> Members(v)[k] == Field(v, k)
  {}

  lemma FilledKeys(url: PublicUrl, v: ItemView)
    ensures Members(Filled(url, v)).Keys == Keys(v)
  {
    FilledField(url, v, IdKey);
    MembersMean(Filled(url, v), IdKey);
  }

  lemma ViewNames(v: ItemView)
    ensures Names(Members(v)) <==> v.filename.Some?
    ensures v.filename.Some? ==> Members(v)[FilenameKey] == Str(v.filename.value)
  {
    MembersMean(v, FilenameKey);
  }

  lemma PatchedField(url: PublicUrl, v: ItemView, k: Key)
    requires k in Keys(v)
    ensures var p := PatchWith(url, Serialise(v), v.downloadType);
      p.Obj? && p.members.Keys == Keys(v) && p.members[k] == Field(Filled(url, v), k)
  {
    MembersMean(v, k);
    MembersMean(v, ChaptersKey);
    MembersMean(v, SubtitlesKey);
    ViewNames(v);
    PatchWithMeans(url, Members(v), v.chapterFiles, v.subtitleFiles, v.downloadType);
    FilledField(url, v, k);
  }

  /** What the filler makes of a whole serialised view. */
  lemma PatchedIsFilled(url: PublicUrl, v: ItemView)
    ensures PatchItem(url, Serialise(v)) == Serialise(Filled(url, v))
  {
    StatesItsType(v);
    var p, f := PatchWith(url, Serialise(v), v.downloadType), Members(Filled(url, v));
    FilledKeys(url, v);
    forall k | k in Keys(v)
      ensures p.Obj? && p.members.Keys == Keys(v) && p.members[k] == f[k]
    {
      PatchedField(url, v, k);
      MembersMean(Filled(url, v), k);
    }
    PatchedField(url, v, IdKey);
    assert p.members == f;
  }

  lemma NoFilesNothingToProject(url: PublicUrl, v: ItemView)
    requires !HasFiles(v)
    ensures ProjectFiles(url, v.chapterFiles, v.downloadType) == v.chapterFiles
    ensures ProjectFiles(url, v.subtitleFiles, v.downloadType) == v.subtitleFiles
  {}

  /**
   Serialising the filled view is filling the serialised view, unless the view has files but no file of
   its own and already carries a URL, which only the first of the two clears.
   */
  lemma FillersAgree(url: PublicUrl, v: ItemView)
    ensures Serialise(Project(url, v)) == PatchItem(url, Serialise(v))
            <==> !(v.filename == None && HasFiles(v) && v.downloadUrl.Some?)
  {
    PatchedIsFilled(url, v);
    if !HasFiles(v) {
      NoFilesNothingToProject(url, v);
    }
    if v.filename == None && HasFiles(v) && v.downloadUrl.Some? {
      assert Members(Project(url, v))[UrlKey] == Null;
    }
  }

  // -- deltas -------------------------------------------------------------------------------------------

  /** Two generations of one record: the key and the frozen fields are the same. */
  predicate SameRecord(was: ItemView, now: ItemView) {
    && WellFormed(was) && WellFormed(now)
    && was.id == now.id && was.state.Keys == now.state.Keys && was.frozen == now.frozen
    && was.downloadType == now.downloadType && was.selection == now.selection
  }

  /** The id and the changed fields; the selection and the frozen fields are never sent. */
  function Diff(was: ItemView, now: ItemView): map<Key, Json>
    requires SameRecord(was, now)
  {
    map k | k in Keys(now) && k != SelectionKey && k !in now.frozen
            && (k == IdKey || Field(was, k) != Field(now, k)) :: Field(now, k)
  }

  /** A delta carries the id and exactly the fields that changed, with their new values. */
  lemma DiffSends(was: ItemView, now: ItemView, k: Key)
    requires SameRecord(was, now) && k in Keys(now)
    ensures k in Diff(was, now) <==> k == IdKey || Members(was)[k] != Members(now)[k]
    ensures k in Diff(was, now) ==> Diff(was, now)[k] == Members(now)[k]
  {
    MembersMean(was, k);
    MembersMean(now, k);
    StatesItsType(now);
  }

  /** What a client makes of a delta: the keys present are overwritten, the rest stay. */
  function Apply(base: map<Key, Json>, patch: map<Key, Json>): map<Key, Json> { base + patch }

  lemma SameKeys(was: ItemView, now: ItemView)
    requires SameRecord(was, now)
    ensures Keys(was) == Keys(now)
  {}

  lemma UnsentIsUnchanged(was: ItemView, now: ItemView, k: Key)
    requires SameRecord(was, now) && k in Keys(now) && k !in Diff(was, now)
    ensures k in Keys(was) && Field(was, k) == Field(now, k)
  {
    SameKeys(was, now);
    if k in now.frozen {
      assert k.OtherKey? && k !in now.state && k !in was.state;
    }
  }

  lemma SentIsNew(was: ItemView, now: ItemView, k: Key)
    requires SameRecord(was, now) && k in Diff(was, now)
    ensures k in Keys(now) && Diff(was, now)[k] == Field(now, k)
  {}

  /** Applying the delta to the old object gives exactly the new one. */
  lemma DeltaReproduces(was: ItemView, now: ItemView)
    requires SameRecord(was, now)
    ensures Apply(Members(was), Diff(was, now)) == Members(now)
  {
    var a, d, b := Members(was), Diff(was, now), Members(now);
    SameKeys(was, now);
    MembersMean(was, IdKey);
    MembersMean(now, IdKey);
    forall k
      ensures k in d ==> k in b && d[k] == b[k]
      ensures k in b && k !in d ==> a[k] == b[k]
    {
      MembersMean(was, k);
      MembersMean(now, k);
      if k in d { SentIsNew(was, now, k); } else if k in b { UnsentIsUnchanged(was, now, k); }
    }
    OverlayIs(a, d, b);
  }

  lemma OverlayIs(a: map<Key, Json>, p: map<Key, Json>, b: map<Key, Json>)
    requires a.Keys == b.Keys
    requires forall k :: k in p ==> k in b && p[k] == b[k]
    requires forall k :: k in b && k !in p ==> a[k] == b[k]
    ensures Apply(a, p) == b
  {}

  /** Whether the delta tells the client of a file name, which is when the filler adds a URL to it. */
  predicate SendsName(was: ItemView, now: ItemView) { was.filename != now.filename && now.filename.Some? }

  /** The delta after the filler: the changed fields with their URLs, and the item's own URL with its name. */
  ghost predicate IsFilledDiff(url: PublicUrl, was: ItemView, now: ItemView, p: map<Key, Json>)
    requires SameRecord(was, now)
  {
    && p.Keys == Diff(was, now).Keys + (if SendsName(was, now) then {UrlKey} else {})
    && forall k :: k in p && k in Keys(Filled(url, now)) ==> p[k] == Field(Filled(url, now), k)
  }

  lemma DiffNames(was: ItemView, now: ItemView)
    requires SameRecord(was, now)
    ensures Names(Diff(was, now)) <==> SendsName(was, now)
    ensures Names(Diff(was, now)) ==> Diff(was, now)[FilenameKey].s == now.filename.value
    ensures was.downloadUrl == now.downloadUrl ==> UrlKey !in Diff(was, now)
  {}

  lemma FillersOnDelta(url: PublicUrl, was: ItemView, now: ItemView)
    requires SameRecord(was, now) && was.downloadUrl == None && now.downloadUrl == None
    ensures var p := PatchDelta(url, Obj(Diff(was, now)), Some(now.downloadType));
      p.Obj? && IsFilledDiff(url, was, now, p.members)
  {
    var d := Diff(was, now);
    DiffNames(was, now);
    PatchWithMeans(url, d, now.chapterFiles, now.subtitleFiles, now.downloadType);
    var p := PatchWith(url, Obj(d), now.downloadType).members;
    forall k | k in p && k in Keys(Filled(url, now))
      ensures p[k] == Field(Filled(url, now), k)
    {
      FilledField(url, now, k);
    }
    assert IsFilledDiff(url, was, now, p);
    NothingToFill(url, d, now.downloadType);
  }

  /** The check in front of the filler skips only deltas it would leave alone. */
  lemma NothingToFill(url: PublicUrl, m: map<Key, Json>, dt: DownloadType)
    ensures PatchDelta(url, Obj(m), Some(dt)) == PatchWith(url, Obj(m), dt)
    ensures PatchDelta(url, Obj(m), None) == PatchWith(url, Obj(m), Video)
  {}

  lemma ProjectIsFilled(url: PublicUrl, v: ItemView)
    requires v.downloadUrl == None
    ensures Project(url, v) == Filled(url, v)
  {
    if !HasFiles(v) {
      NoFilesNothingToProject(url, v);
    }
  }

  /** A field that was not sent is filled alike before and after, but for the URL of a name taken away. */
  lemma UnsentFillsAlike(url: PublicUrl, was: ItemView, now: ItemView, k: Key)
    requires SameRecord(was, now) && was.downloadUrl == None && now.downloadUrl == None
    requires k in Keys(now) && k !in Diff(was, now) && !(k == UrlKey && was.filename != now.filename)
    ensures k in Keys(Filled(url, was)) && k in Keys(Filled(url, now))
    ensures Field(Filled(url, was), k) == Field(Filled(url, now), k)
  {
    UnsentIsUnchanged(was, now, k);
    FilledField(url, was, k);
    FilledField(url, now, k);
    FilesAgree(url, was.chapterFiles, was.downloadType);
    FilesAgree(url, now.chapterFiles, now.downloadType);
    FilesAgree(url, was.subtitleFiles, was.downloadType);
    FilesAgree(url, now.subtitleFiles, now.downloadType);
  }

  /** What a client has after the filled delta. */
  function AfterDelta(url: PublicUrl, was: ItemView, now: ItemView): map<Key, Json>
    requires SameRecord(was, now)
  {
    var p := PatchDelta(url, Obj(Diff(was, now)), Some(now.downloadType));
    assert p.Obj?;
    Apply(Members(Project(url, was)), p.members)
  }

  /**
   A client that applies the filled delta to the filled old object holds the filled new object, unless the
   item's file name was taken away: then the old URL stays.
   */
  lemma DeltaKeepsUrls(url: PublicUrl, was: ItemView, now: ItemView)
    requires SameRecord(was, now) && was.downloadUrl == None && now.downloadUrl == None
    ensures AfterDelta(url, was, now) == Members(Project(url, now))
            <==> !(was.filename.Some? && now.filename == None)
  {
    ProjectIsFilled(url, was);
    ProjectIsFilled(url, now);
    FillersOnDelta(url, was, now);
    var p := PatchDelta(url, Obj(Diff(was, now)), Some(now.downloadType)).members;
    if was.filename.Some? && now.filename == None {
      StaleUrl(url, was, now, p);
    } else {
      FreshUrl(url, was, now, p);
    }
  }

  lemma StaleUrl(url: PublicUrl, was: ItemView, now: ItemView, p: map<Key, Json>)
    requires SameRecord(was, now) && was.downloadUrl == None && now.downloadUrl == None
    requires IsFilledDiff(url, was, now, p) && was.filename.Some? && now.filename == None
    ensures UrlKey in Members(Filled(url, now)) && Members(Filled(url, now))[UrlKey] == Null
    ensures UrlKey in Apply(Members(Filled(url, was)), p) && Apply(Members(Filled(url, was)), p)[UrlKey].Str?
  {
    DiffNames(was, now);
    FilledKeys(url, was);
    FilledKeys(url, now);
    FilledField(url, was, UrlKey);
    FilledField(url, now, UrlKey);
    MembersMean(Filled(url, was), UrlKey);
    MembersMean(Filled(url, now), UrlKey);
  }

  lemma FreshUrl(url: PublicUrl, was: ItemView, now: ItemView, p: map<Key, Json>)
    requires SameRecord(was, now) && was.downloadUrl == None && now.downloadUrl == None
    requires IsFilledDiff(url, was, now, p) && !(was.filename.Some? && now.filename == None)
    ensures Apply(Members(Filled(url, was)), p) == Members(Filled(url, now))
  {
    var a, b := Members(Filled(url, was)), Members(Filled(url, now));
    SameKeys(was, now);
    FilledKeys(url, was);
    FilledKeys(url, now);
    forall k
      ensures k in p ==> k in b && p[k] == b[k]
      ensures k in b && k !in p ==> a[k] == b[k]
    {
      MembersMean(Filled(url, was), k);
      MembersMean(Filled(url, now), k);
      if k in Diff(was, now) {
        SentIsNew(was, now, k);
      } else if k in b && k !in p {
        UnsentFillsAlike(url, was, now, k);
      }
    }
    OverlayIs(a, p, b);
  }
}
