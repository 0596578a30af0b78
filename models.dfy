/** The record types of a project: scenes, keyframes, audio clips, scripts
    and projects, with their conversions to and from plain dictionaries.
    A dictionary is a map from field names to dynamically typed values.
    Reading a value of the wrong type is an error here (Python would store
    it as it is); the current time in ISO form is the parameter `now`. */
module Models {
  import opened Common

  datatype Value =
    | Null
    | Bool(b: bool)
    | Int(i: int)
    | Float(x: real)
    | Str(s: string)
    | List(items: seq<Value>)
    | Map(entries: map<string, Value>)

  type PyDict = map<string, Value>

  /** Why `from_dict` fails: a required key is absent (`KeyError`), or a
      value does not have the field's type. */
  datatype LookupError = Missing(key: string) | WrongType(key: string)

  // ------------------------------------------------------ reading fields

  /** `data[key]` for a string field. */
  function RequiredStr(d: PyDict, key: string): (r: Result<string, LookupError>)
    ensures key !in d ==> r == Err(Missing(key))
    ensures r.Ok? <==> key in d && d[key].Str?
    ensures r.Ok? ==> d[key] == Str(r.value)
    ensures r.Err? ==> r.error.key == key
  {
    if key !in d then Err(Missing(key))
    else if d[key].Str? then Ok(d[key].s)
    else Err(WrongType(key))
  }

  /** `data[key]` for an integer field. */
  function RequiredInt(d: PyDict, key: string): (r: Result<int, LookupError>)
    ensures key !in d ==> r == Err(Missing(key))
    ensures r.Ok? <==> key in d && d[key].Int?
    ensures r.Ok? ==> d[key] == Int(r.value)
    ensures r.Err? ==> r.error.key == key
  {
    if key !in d then Err(Missing(key))
    else if d[key].Int? then Ok(d[key].i)
    else Err(WrongType(key))
  }

  /** The number held by a float field, which may also hold an integer. */
  function NumberOf(v: Value): (r: Option<real>)
    ensures r.Some? <==> v.Float? || v.Int?
    ensures v.Float? ==> r == Some(v.x)
  {
    match v
    case Float(x) => Some(x)
    case Int(i) => Some(i as real)
    case _ => None
  }

  /** `data[key]` for a float field. */
  function RequiredFloat(d: PyDict, key: string): (r: Result<real, LookupError>)
    ensures key !in d ==> r == Err(Missing(key))
    ensures r.Ok? <==> key in d && NumberOf(d[key]).Some?
    ensures r.Err? ==> r.error.key == key
  {
    if key !in d then Err(Missing(key))
    else match NumberOf(d[key])
      case Some(x) => Ok(x)
      case None => Err(WrongType(key))
  }

  /** `data.get(key, default)` for a float field. */
  function FloatOr(d: PyDict, key: string, default: real): (r: Result<real, LookupError>)
    ensures key !in d ==> r == Ok(default)
    ensures r.Err? ==> r.error == WrongType(key)
  {
    if key !in d then Ok(default)
    else match NumberOf(d[key])
      case Some(x) => Ok(x)
      case None => Err(WrongType(key))
  }

  /** `data.get(key, default)` for a string field. */
  function StrOr(d: PyDict, key: string, default: string): (r: Result<string, LookupError>)
    ensures key !in d ==> r == Ok(default)
    ensures key in d && d[key].Str? ==> r == Ok(d[key].s)
    ensures r.Err? ==> r.error == WrongType(key)
  {
    if key !in d then Ok(default)
    else if d[key].Str? then Ok(d[key].s)
    else Err(WrongType(key))
  }

  /** `data.get(key, default)` for an integer field. */
  function IntOr(d: PyDict, key: string, default: int): (r: Result<int, LookupError>)
    ensures key !in d ==> r == Ok(default)
    ensures key in d && d[key].Int? ==> r == Ok(d[key].i)
    ensures r.Err? ==> r.error == WrongType(key)
  {
    if key !in d then Ok(default)
    else if d[key].Int? then Ok(d[key].i)
    else Err(WrongType(key))
  }

  /** `data.get(key)` for an optional string: absent and `None` are both
      `None`. */
  function OptionalStr(d: PyDict, key: string): (r: Result<Option<string>, LookupError>)
    ensures key !in d ==> r == Ok(None)
    ensures r.Err? ==> r.error == WrongType(key)
  {
    if key !in d || d[key].Null? then Ok(None)
    else if d[key].Str? then Ok(Some(d[key].s))
    else Err(WrongType(key))
  }

  /** `data.get(key)` for an optional integer. */
  function OptionalInt(d: PyDict, key: string): (r: Result<Option<int>, LookupError>)
    ensures key !in d ==> r == Ok(None)
    ensures r.Err? ==> r.error == WrongType(key)
  {
    if key !in d || d[key].Null? then Ok(None)
    else if d[key].Int? then Ok(Some(d[key].i))
    else Err(WrongType(key))
  }

  /** `data.get('metadata', {})`. */
  function MetadataOf(d: PyDict): (r: Result<PyDict, LookupError>)
    ensures "metadata" !in d ==> r == Ok(map[])
    ensures r.Err? ==> r.error == WrongType("metadata")
  {
    if "metadata" !in d then Ok(map[])
    else if d["metadata"].Map? then Ok(d["metadata"].entries)
    else Err(WrongType("metadata"))
  }

  function StrOrNull(o: Option<string>): Value {
    match o
    case Some(s) => Str(s)
    case None => Null
  }

  function IntOrNull(o: Option<int>): Value {
    match o
    case Some(i) => Int(i)
    case None => Null
  }

  // --------------------------------------------------------------- Scene

  datatype Scene = Scene(
    id: string, index: int, startTime: real, endTime: real, duration: real,
    startFrame: int, endFrame: int, projectId: Option<string>, metadata: PyDict)

  const SceneKeys: set<string> :=
    {"id", "index", "start_time", "end_time", "duration", "start_frame", "end_frame", "project_id", "metadata"}
  const SceneRequired: set<string> :=
    {"id", "index", "start_time", "end_time", "duration", "start_frame", "end_frame"}

  /** `Scene.to_dict`: exactly the nine fields. */
  function SceneToDict(s: Scene): (d: PyDict)
    ensures d.Keys == SceneKeys
  {
    map["id" := Str(s.id), "index" := Int(s.index), "start_time" := Float(s.startTime),
        "end_time" := Float(s.endTime), "duration" := Float(s.duration),
        "start_frame" := Int(s.startFrame), "end_frame" := Int(s.endFrame),
        "project_id" := StrOrNull(s.projectId), "metadata" := Map(s.metadata)]
  }

  /** `Scene.from_dict`: the seven timing fields are required, the project
      defaults to `None` and the metadata to `{}`. */
  function SceneFromDict(d: PyDict): (r: Result<Scene, LookupError>)
    ensures r.Ok? ==> SceneRequired <= d.Keys
    ensures r.Ok? && "project_id" !in d ==> r.value.projectId == None
    ensures r.Ok? && "metadata" !in d ==> r.value.metadata == map[]
    ensures r.Err? && r.error.Missing? ==> r.error.key in SceneRequired && r.error.key !in d
  {
    var id :- RequiredStr(d, "id");
    var index :- RequiredInt(d, "index");
    var startTime :- RequiredFloat(d, "start_time");
    var endTime :- RequiredFloat(d, "end_time");
    var duration :- RequiredFloat(d, "duration");
    var startFrame :- RequiredInt(d, "start_frame");
    var endFrame :- RequiredInt(d, "end_frame");
    var projectId :- OptionalStr(d, "project_id");
    var metadata :- MetadataOf(d);
    Ok(Scene(id, index, startTime, endTime, duration, startFrame, endFrame, projectId, metadata))
  }

  /** Every scene survives a trip through a dictionary. */
  lemma SceneRoundTrip(s: Scene)
    ensures SceneFromDict(SceneToDict(s)) == Ok(s)
  {
    var d := SceneToDict(s);
    assert OptionalStr(d, "project_id") == Ok(s.projectId);
  }

  /** A dictionary with only the required fields gives the defaults. */
  lemma SceneDefaults(id: string, index: int, startTime: real, endTime: real, duration: real, startFrame: int, endFrame: int)
    ensures SceneFromDict(map["id" := Str(id), "index" := Int(index), "start_time" := Float(startTime),
                              "end_time" := Float(endTime), "duration" := Float(duration),
                              "start_frame" := Int(startFrame), "end_frame" := Int(endFrame)])
            == Ok(Scene(id, index, startTime, endTime, duration, startFrame, endFrame, None, map[]))
  {
  }

  // ------------------------------------------------------------ Keyframe

  datatype Keyframe = Keyframe(
    sceneId: string, keyframeIndex: int, time: real, frameNumber: int,
    imagePath: Option<string>, imageHash: Option<string>, qualityScore: real,
    projectId: Option<string>, sceneIndex: Option<int>, metadata: PyDict)

  const KeyframeKeys: set<string> :=
    {"scene_id", "keyframe_index", "time", "frame_number", "image_path", "image_hash",
     "quality_score", "project_id", "scene_index", "metadata"}
  const KeyframeRequired: set<string> := {"scene_id", "keyframe_index", "time", "frame_number"}

  /** `Keyframe.to_dict`: exactly the ten fields. */
  function KeyframeToDict(k: Keyframe): (d: PyDict)
    ensures d.Keys == KeyframeKeys
  {
    map["scene_id" := Str(k.sceneId), "keyframe_index" := Int(k.keyframeIndex),
        "time" := Float(k.time), "frame_number" := Int(k.frameNumber),
        "image_path" := StrOrNull(k.imagePath), "image_hash" := StrOrNull(k.imageHash),
        "quality_score" := Float(k.qualityScore), "project_id" := StrOrNull(k.projectId),
        "scene_index" := IntOrNull(k.sceneIndex), "metadata" := Map(k.metadata)]
  }

  /** `Keyframe.from_dict`: the scene, index, time and frame number are
      required; the image path and hash, project and scene index default to
      `None`, the quality score to 0.0 and the metadata to `{}`. */
  function KeyframeFromDict(d: PyDict): (r: Result<Keyframe, LookupError>)
    ensures r.Ok? ==> KeyframeRequired <= d.Keys
    ensures r.Ok? && "image_path" !in d ==> r.value.imagePath == None
    ensures r.Ok? && "image_hash" !in d ==> r.value.imageHash == None
    ensures r.Ok? && "quality_score" !in d ==> r.value.qualityScore == 0.0
    ensures r.Ok? && "project_id" !in d ==> r.value.projectId == None
    ensures r.Ok? && "scene_index" !in d ==> r.value.sceneIndex == None
    ensures r.Ok? && "metadata" !in d ==> r.value.metadata == map[]
    ensures r.Err? && r.error.Missing? ==> r.error.key in KeyframeRequired && r.error.key !in d
  {
    var sceneId :- RequiredStr(d, "scene_id");
    var keyframeIndex :- RequiredInt(d, "keyframe_index");
    var time :- RequiredFloat(d, "time");
    var frameNumber :- RequiredInt(d, "frame_number");
    var imagePath :- OptionalStr(d, "image_path");
    var imageHash :- OptionalStr(d, "image_hash");
    var qualityScore :- FloatOr(d, "quality_score", 0.0);
    var projectId :- OptionalStr(d, "project_id");
    var sceneIndex :- OptionalInt(d, "scene_index");
    var metadata :- MetadataOf(d);
    Ok(Keyframe(sceneId, keyframeIndex, time, frameNumber, imagePath, imageHash,
                qualityScore, projectId, sceneIndex, metadata))
  }

  /** Every keyframe survives a trip through a dictionary. */
  lemma KeyframeRoundTrip(k: Keyframe)
    ensures KeyframeFromDict(KeyframeToDict(k)) == Ok(k)
  {
    var d := KeyframeToDict(k);
    assert OptionalStr(d, "image_path") == Ok(k.imagePath);
    assert OptionalStr(d, "image_hash") == Ok(k.imageHash);
    assert OptionalStr(d, "project_id") == Ok(k.projectId);
    assert OptionalInt(d, "scene_index") == Ok(k.sceneIndex);
  }

  /** A dictionary with only the required fields gives the defaults. */
  lemma KeyframeDefaults(sceneId: string, keyframeIndex: int, time: real, frameNumber: int)
    ensures KeyframeFromDict(map["scene_id" := Str(sceneId), "keyframe_index" := Int(keyframeIndex),
                                 "time" := Float(time), "frame_number" := Int(frameNumber)])
            == Ok(Keyframe(sceneId, keyframeIndex, time, frameNumber, None, None, 0.0, None, None, map[]))
  {
  }

  // --------------------------------------------------------------- Audio

  datatype Audio = Audio(
    sceneId: string, audioPath: string, duration: real, voice: string,
    projectId: Option<string>, createdAt: string, metadata: PyDict)

  const AudioKeys: set<string> :=
    {"scene_id", "audio_path", "duration", "voice", "project_id", "created_at", "metadata"}
  const AudioRequired: set<string> := {"scene_id", "audio_path"}

  /** `Audio.to_dict`: exactly the seven fields. */
  function AudioToDict(a: Audio): (d: PyDict)
    ensures d.Keys == AudioKeys
  {
    map["scene_id" := Str(a.sceneId), "audio_path" := Str(a.audioPath),
        "duration" := Float(a.duration), "voice" := Str(a.voice),
        "project_id" := StrOrNull(a.projectId), "created_at" := Str(a.createdAt),
        "metadata" := Map(a.metadata)]
  }

  /** `Audio.from_dict`: the scene and the file are required; the duration
      defaults to 0.0, the voice to `''`, the project to `None`, the
      creation time to now and the metadata to `{}`. */
  function AudioFromDict(d: PyDict, now: string): (r: Result<Audio, LookupError>)
    ensures r.Ok? ==> AudioRequired <= d.Keys
    ensures r.Ok? && "duration" !in d ==> r.value.duration == 0.0
    ensures r.Ok? && "voice" !in d ==> r.value.voice == ""
    ensures r.Ok? && "project_id" !in d ==> r.value.projectId == None
    ensures r.Ok? && "created_at" !in d ==> r.value.createdAt == now
    ensures r.Ok? && "metadata" !in d ==> r.value.metadata == map[]
    ensures r.Err? && r.error.Missing? ==> r.error.key in AudioRequired && r.error.key !in d
  {
    var sceneId :- RequiredStr(d, "scene_id");
    var audioPath :- RequiredStr(d, "audio_path");
    var duration :- FloatOr(d, "duration", 0.0);
    var voice :- StrOr(d, "voice", "");
    var projectId :- OptionalStr(d, "project_id");
    var createdAt :- StrOr(d, "created_at", now);
    var metadata :- MetadataOf(d);
    Ok(Audio(sceneId, audioPath, duration, voice, projectId, createdAt, metadata))
  }

  /** Every audio record survives a trip through a dictionary, whatever the
      time of reading. */
  lemma AudioRoundTrip(a: Audio, now: string)
    ensures AudioFromDict(AudioToDict(a), now) == Ok(a)
  {
    var d := AudioToDict(a);
    assert OptionalStr(d, "project_id") == Ok(a.projectId);
  }

  /** A dictionary with only the required fields gives the defaults. */
  lemma AudioDefaults(sceneId: string, audioPath: string, now: string)
    ensures AudioFromDict(map["scene_id" := Str(sceneId), "audio_path" := Str(audioPath)], now)
            == Ok(Audio(sceneId, audioPath, 0.0, "", None, now, map[]))
  {
  }

  // -------------------------------------------------------------- Script

  /** The fields of a script as the constructor receives them. */
  datatype ScriptFields = ScriptFields(
    sceneId: string, script: string, wordCount: int, projectId: Option<string>,
    createdAt: string, updatedAt: string, metadata: PyDict)

  /** What `__post_init__` leaves: a word count of 0 becomes the length of
      the text. */
  function PostInit(f: ScriptFields): (g: ScriptFields)
    ensures g.wordCount == (if f.wordCount == 0 then |f.script| else f.wordCount)
    ensures g.(wordCount := f.wordCount) == f
    ensures WordCountSet(g)
  {
    if f.wordCount == 0 then f.(wordCount := |f.script|) else f
  }

  /** Holds after construction: a zero word count only for an empty text. */
  predicate WordCountSet(f: ScriptFields) {
    f.wordCount == 0 ==> f.script == ""
  }

  const ScriptKeys: set<string> :=
    {"scene_id", "script", "word_count", "project_id", "created_at", "updated_at", "metadata"}
  const ScriptRequired: set<string> := {"scene_id", "script"}

  /** `Script.to_dict`: exactly the seven fields. */
  function ScriptToDict(f: ScriptFields): (d: PyDict)
    ensures d.Keys == ScriptKeys
  {
    map["scene_id" := Str(f.sceneId), "script" := Str(f.script), "word_count" := Int(f.wordCount),
        "project_id" := StrOrNull(f.projectId), "created_at" := Str(f.createdAt),
        "updated_at" := Str(f.updatedAt), "metadata" := Map(f.metadata)]
  }

  /** `Script.from_dict`, followed by `__post_init__`: the scene and the
      text are required; the word count defaults to the length of the text,
      both times to now, the project to `None` and the metadata to `{}`. */
  function ScriptFromDict(d: PyDict, now: string): (r: Result<ScriptFields, LookupError>)
    ensures r.Ok? ==> ScriptRequired <= d.Keys && d["script"] == Str(r.value.script)
    ensures r.Ok? ==> WordCountSet(r.value)
    ensures r.Ok? && "word_count" !in d ==> r.value.wordCount == |r.value.script|
    ensures r.Ok? && "created_at" !in d ==> r.value.createdAt == now
    ensures r.Ok? && "updated_at" !in d ==> r.value.updatedAt == now
    ensures r.Ok? && "project_id" !in d ==> r.value.projectId == None
    ensures r.Ok? && "metadata" !in d ==> r.value.metadata == map[]
    ensures r.Err? && r.error.Missing? ==> r.error.key in ScriptRequired && r.error.key !in d
  {
    var sceneId :- RequiredStr(d, "scene_id");
    var script :- RequiredStr(d, "script");
    var wordCount :- IntOr(d, "word_count", |script|);
    var projectId :- OptionalStr(d, "project_id");
    var createdAt :- StrOr(d, "created_at", now);
    var updatedAt :- StrOr(d, "updated_at", now);
    var metadata :- MetadataOf(d);
    Ok(PostInit(ScriptFields(sceneId, script, wordCount, projectId, createdAt, updatedAt, metadata)))
  }

  /** A constructed script survives a trip through a dictionary: the only
      field `__post_init__` could change is a zero word count, and that
      belongs to an empty text. */
  lemma ScriptRoundTrip(f: ScriptFields, now: string)
    requires WordCountSet(f)
    ensures ScriptFromDict(ScriptToDict(f), now) == Ok(f)
  {
    var d := ScriptToDict(f);
    assert OptionalStr(d, "project_id") == Ok(f.projectId);
  }

  /** A script as an object: `update` replaces its text in place. */
  class Script {
    var sceneId: string
    var script: string
    var wordCount: int
    var projectId: Option<string>
    var createdAt: string
    var updatedAt: string
    var metadata: PyDict

    function Fields(): ScriptFields
      reads this
    {
      ScriptFields(sceneId, script, wordCount, projectId, createdAt, updatedAt, metadata)
    }

    ghost predicate Valid()
      reads this
    {
      WordCountSet(Fields())
    }

    /** The dataclass constructor followed by `__post_init__`. */
    constructor (f: ScriptFields)
      ensures Fields() == PostInit(f)
      ensures Valid()
    {
      var g := PostInit(f);
      sceneId, script, wordCount := g.sceneId, g.script, g.wordCount;
      projectId, createdAt, updatedAt, metadata := g.projectId, g.createdAt, g.updatedAt, g.metadata;
    }

    /** `Script.from_dict`: a new script, or the missing key. */
    static method FromDict(d: PyDict, now: string) returns (r: Result<Script, LookupError>)
      ensures r.Ok? <==> ScriptFromDict(d, now).Ok?
      ensures r.Ok? ==> fresh(r.value) && r.value.Fields() == ScriptFromDict(d, now).value && r.value.Valid()
      ensures r.Err? ==> r.error == ScriptFromDict(d, now).error
    {
      var fields := ScriptFromDict(d, now);
      if fields.Err? {
        return Err(fields.error);
      }
      var s := new Script(fields.value);
      return Ok(s);
    }

    /** `Script.to_dict`. */
    function ToDict(): (d: PyDict)
      reads this
      ensures d.Keys == ScriptKeys
    {
      ScriptToDict(Fields())
    }

    /** `update`: the new text, its length as the word count and the update
        time; the scene, project, creation time and metadata are kept. */
    method Update(newScript: string, now: string)
      requires Valid()
      modifies this
      ensures Fields() == old(Fields()).(script := newScript, wordCount := |newScript|, updatedAt := now)
      ensures Valid()
    {
      script := newScript;
      wordCount := |newScript|;
      updatedAt := now;
    }
  }

  /** A script written out and read back has the fields it had. */
  method ScriptReload(s: Script, now: string) returns (r: Result<Script, LookupError>)
    requires s.Valid()
    ensures r.Ok? && fresh(r.value) && r.value.Fields() == s.Fields()
  {
    ScriptRoundTrip(s.Fields(), now);
    r := Script.FromDict(s.ToDict(), now);
  }

  // ------------------------------------------------------------- Project

  /** The fields of a project that its dictionary holds. */
  datatype ProjectFields = ProjectFields(
    id: string, name: string, description: string, videoPath: string,
    createdAt: string, updatedAt: string, version: int, status: string, metadata: PyDict)

  const ProjectKeys: set<string> :=
    {"id", "name", "description", "video_path", "created_at", "updated_at", "version", "status", "metadata"}
  const ProjectRequired: set<string> := {"id", "name"}

  /** `Project.to_dict`: the nine plain fields; the related scenes,
      keyframes, scripts and audios are not written. */
  function ProjectToDict(f: ProjectFields): (d: PyDict)
    ensures d.Keys == ProjectKeys
  {
    map["id" := Str(f.id), "name" := Str(f.name), "description" := Str(f.description),
        "video_path" := Str(f.videoPath), "created_at" := Str(f.createdAt),
        "updated_at" := Str(f.updatedAt), "version" := Int(f.version),
        "status" := Str(f.status), "metadata" := Map(f.metadata)]
  }

  /** `Project.from_dict`: the id and the name are required; the
      description and video path default to `''`, both times to now, the
      version to 1, the status to `'created'` and the metadata to `{}`. */
  function ProjectFromDict(d: PyDict, now: string): (r: Result<ProjectFields, LookupError>)
    ensures r.Ok? ==> ProjectRequired <= d.Keys
    ensures r.Ok? && "description" !in d ==> r.value.description == ""
    ensures r.Ok? && "video_path" !in d ==> r.value.videoPath == ""
    ensures r.Ok? && "created_at" !in d ==> r.value.createdAt == now
    ensures r.Ok? && "updated_at" !in d ==> r.value.updatedAt == now
    ensures r.Ok? && "version" !in d ==> r.value.version == 1
    ensures r.Ok? && "status" !in d ==> r.value.status == "created"
    ensures r.Ok? && "metadata" !in d ==> r.value.metadata == map[]
    ensures r.Err? && r.error.Missing? ==> r.error.key in ProjectRequired && r.error.key !in d
  {
    var id :- RequiredStr(d, "id");
    var name :- RequiredStr(d, "name");
    var description :- StrOr(d, "description", "");
    var videoPath :- StrOr(d, "video_path", "");
    var createdAt :- StrOr(d, "created_at", now);
    var updatedAt :- StrOr(d, "updated_at", now);
    var version :- IntOr(d, "version", 1);
    var status :- StrOr(d, "status", "created");
    var metadata :- MetadataOf(d);
    Ok(ProjectFields(id, name, description, videoPath, createdAt, updatedAt, version, status, metadata))
  }

  /** The plain fields of every project survive a trip through a
      dictionary. */
  lemma ProjectRoundTrip(f: ProjectFields, now: string)
    ensures ProjectFromDict(ProjectToDict(f), now) == Ok(f)
  {
  }

  /** A project as an object: `update_timestamp` changes it in place. */
  class Project {
    var id: string
    var name: string
    var description: string
    var videoPath: string
    var createdAt: string
    var updatedAt: string
    var version: int
    var status: string
    var scenes: seq<Scene>
    var keyframes: seq<Keyframe>
    var scripts: seq<Script>
    var audios: seq<Audio>
    var metadata: PyDict

    function Fields(): ProjectFields
      reads this
    {
      ProjectFields(id, name, description, videoPath, createdAt, updatedAt, version, status, metadata)
    }

    /** A project with no related records yet. */
    constructor (f: ProjectFields)
      ensures Fields() == f
      ensures scenes == [] && keyframes == [] && scripts == [] && audios == []
    {
      id, name, description, videoPath := f.id, f.name, f.description, f.videoPath;
      createdAt, updatedAt, version, status := f.createdAt, f.updatedAt, f.version, f.status;
      metadata := f.metadata;
      scenes, keyframes, scripts, audios := [], [], [], [];
    }

    /** `Project.from_dict`: a new project without related records, or the
        missing key. */
    static method FromDict(d: PyDict, now: string) returns (r: Result<Project, LookupError>)
      ensures r.Ok? <==> ProjectFromDict(d, now).Ok?
      ensures r.Ok? ==> fresh(r.value) && r.value.Fields() == ProjectFromDict(d, now).value
      ensures r.Ok? ==> r.value.scenes == [] && r.value.keyframes == [] && r.value.scripts == [] && r.value.audios == []
      ensures r.Err? ==> r.error == ProjectFromDict(d, now).error
    {
      var fields := ProjectFromDict(d, now);
      if fields.Err? {
        return Err(fields.error);
      }
      var p := new Project(fields.value);
      return Ok(p);
    }

    /** `Project.to_dict`. */
    function ToDict(): (d: PyDict)
      reads this
      ensures d.Keys == ProjectKeys
    {
      ProjectToDict(Fields())
    }

    /** `update_timestamp`: the update time becomes now and the version
        goes up by one; nothing else changes. */
    method UpdateTimestamp(now: string)
      modifies this
      ensures updatedAt == now && version == old(version) + 1
      ensures Fields() == old(Fields()).(updatedAt := now, version := old(version) + 1)
      ensures scenes == old(scenes) && keyframes == old(keyframes)
      ensures scripts == old(scripts) && audios == old(audios)
    {
      updatedAt := now;
      version := version + 1;
    }
  }

  /** A project written out and read back keeps its plain fields and loses
      its related records. */
  method ProjectReload(p: Project, now: string) returns (r: Result<Project, LookupError>)
    ensures r.Ok? && fresh(r.value) && r.value.Fields() == p.Fields()
    ensures r.value.scenes == [] && r.value.keyframes == [] && r.value.scripts == [] && r.value.audios == []
  {
    ProjectRoundTrip(p.Fields(), now);
    r := Project.FromDict(p.ToDict(), now);
  }
}
