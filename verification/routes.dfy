/**
 * The gate ladders of the `/login`, `/logout` and `/register` requests over
 * abstract collaborator results. Each ladder stops at the first gate that
 * fails; `steps` records which collaborators were consulted, in order.
 */
module Routes {
  import opened Wrappers
  import opened Vision
  import opened AntiSpoof
  import opened Store

  /** `MODEL_DIR`, the directory whose listing names the anti-spoof models. */
  const ModelDir := "./resources/anti_spoof_models"

  /**
   * What base64 decoding then `cv2.imdecode` make of the request's image string:
   * an exception (a malformed base64 string, or an empty buffer, which is what a
   * missing or empty `image` field decodes to and which `cv2.imdecode` refuses),
   * None from `cv2.imdecode`, or a frame.
   */
  datatype Decoded = DecodeRaised | NotAnImage | Image(frame: Frame)

  /** Why a request was refused; each is a distinct reply message. `Crashed` is an exception caught by the route. */
  datatype Failure = MissingUsername | Undecodable | Spoofing | NoFace | NoEncoding | UnknownUser | NotSaved | Crashed

  /** A request's reply: success with the user's name, or a refusal. */
  datatype Reply = Success(name: string) | Refused(failure: Failure)

  /** Login records 'in', logout records 'out'. */
  datatype Direction = In | Out

  function ActionName(d: Direction): string
  {
    match d
    case In => "in"
    case Out => "out"
  }

  /** A collaborator a request consults. */
  datatype Step = Decode | CheckLiveness | LocateFaces | EncodeFaces | LookUpUser | WriteLog | InsertUser

  /** Every step of a successful login or logout, in order. */
  const Ladder: seq<Step> := [Decode, CheckLiveness, LocateFaces, EncodeFaces, LookUpUser, WriteLog]

  /** The collaborators of one request: the image decoder, the anti-spoof models with the model directory's listing, and the face library. */
  datatype Services = Services(decode: string -> Decoded, models: Models, modelListing: seq<string>, faces: FaceLib)

  /**
   * The aspect normalisation of login and logout: a frame that is not 3:4 gets
   * width `int(height * 3/4)` and keeps its height. A height of 1 gives width 0,
   * which `cv2.resize` refuses with an exception: None.
   */
  function NormalizeAspect(f: Frame): (r: Option<Frame>)
    ensures CheckImage(f) ==> r == Some(f)
    ensures !CheckImage(f) ==> (r.None? <==> f.height == 1)
    ensures r.Some? ==> r.value.height == f.height && r.value.rgb == f.rgb && r.value.pixels == f.pixels
    ensures r.Some? && !CheckImage(f) ==> 4 * r.value.width <= 3 * f.height < 4 * (r.value.width + 1)
  {
    if CheckImage(f) then Some(f)
    else
      var newWidth := (3 * f.height) / 4;
      if newWidth < 1 then None else Some(Resize(f, newWidth, f.height))
  }

  /** After normalisation the 3:4 check passes exactly when the frame already was 3:4 or its height is a multiple of 4. */
  lemma NormalizedFramePassesCheck(f: Frame)
    requires NormalizeAspect(f).Some?
    ensures CheckImage(NormalizeAspect(f).value) <==> CheckImage(f) || f.height % 4 == 0
  {
    if !CheckImage(f) {
      var q, r := f.height / 4, f.height % 4;
      assert f.height == 4 * q + r;
      assert 3 * f.height == 4 * (3 * q) + 3 * r;
      if r == 0 {
        assert (3 * f.height) / 4 == 3 * q;
      } else if r == 1 {
        assert (3 * f.height) / 4 == 3 * q;
      } else if r == 2 {
        assert (3 * f.height) / 4 == 3 * q + 1;
      } else {
        assert (3 * f.height) / 4 == 3 * q + 2;
      }
    }
  }

  /** The frame a login or logout goes on with, or the refusal it stops at. */
  function Prepare(d: Decoded): Result<Frame, Failure>
  {
    match d
    case DecodeRaised => Err(Crashed)
    case NotAnImage => Err(Undecodable)
    case Image(f) =>
      match NormalizeAspect(f)
      case None => Err(Crashed)
      case Some(g) => Ok(g)
  }

  /**
   * The body shared by `login` and `logout`: decode, normalise the aspect, then
   * admit the frame. `dbUp` and `logUp` say whether the lookup's and the log
   * insert's database connections succeed.
   */
  method Attend(store: UserStore, direction: Direction, imageData: string, svc: Services, dbUp: bool, logUp: bool)
    returns (reply: Reply, ghost steps: seq<Step>)
    requires store.Valid()
    modifies store`logs
    ensures store.Valid()
    ensures 1 <= |steps| <= |Ladder| && steps == Ladder[..|steps|]
    ensures reply.Success? <==> steps == Ladder
    ensures reply.Refused? ==> store.logs == old(store.logs)
    ensures Prepare(svc.decode(imageData)).Err? ==>
      reply == Refused(Prepare(svc.decode(imageData)).error) && steps == [Decode]
    ensures Prepare(svc.decode(imageData)).Ok? ==>
      Admitted(old(store.logs), store.logs, store.users, direction, Prepare(svc.decode(imageData)).value, svc, dbUp, logUp, reply, steps)
    ensures svc.decode(imageData).Image? && !CheckImage(svc.decode(imageData).frame) &&
            svc.decode(imageData).frame.height % 4 != 0 ==>
      reply == Refused(if svc.decode(imageData).frame.height == 1 then Crashed else Spoofing)
  {
    steps := Ladder[..1];
    var decoded := svc.decode(imageData);
    if decoded.DecodeRaised? {
      return Refused(Crashed), steps;
    }
    if decoded.NotAnImage? {
      return Refused(Undecodable), steps;
    }
    var normalized := NormalizeAspect(decoded.frame);
    if normalized.None? {
      return Refused(Crashed), steps;
    }
    var img := normalized.value;
    NormalizedFramePassesCheck(decoded.frame);
    reply, steps := Admit(store, direction, img, svc, dbUp, logUp);
  }

  /**
   * What a login or logout does with the frame it goes on with: the first
   * failing gate among anti-spoofing, face location, encoding and user lookup
   * decides the refusal; otherwise the user's action is logged (unless the log
   * insert fails, which the reply ignores) and the user is greeted.
   */
  ghost predicate Admitted(logsBefore: seq<LogEntry>, logs: seq<LogEntry>, users: seq<User>, direction: Direction,
                           g: Frame, svc: Services, dbUp: bool, logUp: bool, reply: Reply, steps: seq<Step>)
  {
    var live := Liveness(svc.models, g, ModelDir, svc.modelListing) == 1;
    var locations := svc.faces.locate(g);
    var encodings := svc.faces.encode(g, locations);
    (!live ==> reply == Refused(Spoofing) && steps == Ladder[..2]) &&
    (live && locations == [] ==> reply == Refused(NoFace) && steps == Ladder[..3]) &&
    (live && locations != [] && encodings == [] ==> reply == Refused(NoEncoding) && steps == Ladder[..4]) &&
    (live && locations != [] && encodings != [] ==>
      var user := if dbUp then FirstRecognized(users, svc.faces, encodings[0]) else None;
      (user.None? ==> reply == Refused(UnknownUser) && steps == Ladder[..5]) &&
      (user.Some? ==>
        reply == Success(user.value.username) && steps == Ladder &&
        logs == logsBefore + (if logUp then [(user.value.id, ActionName(direction))] else [])))
  }

  /** The gates of login and logout after decoding, on the normalised frame `img`. */
  method Admit(store: UserStore, direction: Direction, img: Frame, svc: Services, dbUp: bool, logUp: bool)
    returns (reply: Reply, ghost steps: seq<Step>)
    requires store.Valid()
    modifies store`logs
    ensures store.Valid()
    ensures 2 <= |steps| <= |Ladder| && steps == Ladder[..|steps|]
    ensures reply.Refused? ==> store.logs == old(store.logs)
    ensures Admitted(old(store.logs), store.logs, store.users, direction, img, svc, dbUp, logUp, reply, steps)
  {
    steps := Ladder[..2];
    var verdict;
    ghost var calls;
    verdict, calls := Test(img, ModelDir, svc.modelListing, svc.models);
    ghost var live := Liveness(svc.models, img, ModelDir, svc.modelListing) == 1;
    assert live <==> verdict == 1;
    if verdict != 1 {
      assert !live;
      return Refused(Spoofing), steps;
    }
    steps := Ladder[..3];
    var faceLocations := svc.faces.locate(img);
    if faceLocations == [] {
      return Refused(NoFace), steps;
    }
    steps := Ladder[..4];
    var faceEncodings := svc.faces.encode(img, faceLocations);
    if faceEncodings == [] {
      return Refused(NoEncoding), steps;
    }
    var faceEncoding := faceEncodings[0];
    steps := Ladder[..5];
    var user := store.GetUserByFaceEncoding(faceEncoding, svc.faces, dbUp);
    if user.None? {
      return Refused(UnknownUser), steps;
    }
    steps := Ladder;
    var k :| 0 <= k < |store.users| && store.users[k] == user.value;
    assert HasId(store.users, user.value.id);
    var _ := store.LogUserAction(user.value.id, ActionName(direction), logUp);
    reply := Success(user.value.username);
  }

  /** After a request, the log is unchanged or has one more row, for a user named `name`, with `action`. */
  ghost predicate LoggedAtMostOnce(before: seq<LogEntry>, after: seq<LogEntry>, users: seq<User>, name: string, action: string)
  {
    after == before ||
    exists u :: u in users && u.username == name && after == before + [(u.id, action)]
  }

  /** `login`: the ladder of `Attend` with 'in' rows. A refused login leaves the log alone; an accepted one adds exactly one 'in' row for the user it greets when the log insert succeeds, and none otherwise. */
  method Login(store: UserStore, imageData: string, svc: Services, dbUp: bool, logUp: bool)
    returns (reply: Reply, ghost steps: seq<Step>)
    requires store.Valid()
    modifies store`logs
    ensures store.Valid()
    ensures 1 <= |steps| <= |Ladder| && steps == Ladder[..|steps|]
    ensures reply.Success? <==> steps == Ladder
    ensures reply.Refused? ==> store.logs == old(store.logs)
    ensures reply.Success? ==> LoggedAtMostOnce(old(store.logs), store.logs, store.users, reply.name, "in")
    ensures reply.Success? && logUp ==> |store.logs| == |old(store.logs)| + 1
    ensures reply.Success? && !logUp ==> store.logs == old(store.logs)
    ensures Prepare(svc.decode(imageData)).Err? ==>
      reply == Refused(Prepare(svc.decode(imageData)).error) && steps == [Decode]
    ensures Prepare(svc.decode(imageData)).Ok? ==>
      Admitted(old(store.logs), store.logs, store.users, In, Prepare(svc.decode(imageData)).value, svc, dbUp, logUp, reply, steps)
    ensures svc.decode(imageData).Image? && !CheckImage(svc.decode(imageData).frame) &&
            svc.decode(imageData).frame.height % 4 != 0 ==>
      reply == Refused(if svc.decode(imageData).frame.height == 1 then Crashed else Spoofing)
  {
    reply, steps := Attend(store, In, imageData, svc, dbUp, logUp);
  }

  /** `logout`: as login, with 'out' rows. */
  method Logout(store: UserStore, imageData: string, svc: Services, dbUp: bool, logUp: bool)
    returns (reply: Reply, ghost steps: seq<Step>)
    requires store.Valid()
    modifies store`logs
    ensures store.Valid()
    ensures 1 <= |steps| <= |Ladder| && steps == Ladder[..|steps|]
    ensures reply.Success? <==> steps == Ladder
    ensures reply.Refused? ==> store.logs == old(store.logs)
    ensures reply.Success? ==> LoggedAtMostOnce(old(store.logs), store.logs, store.users, reply.name, "out")
    ensures reply.Success? && logUp ==> |store.logs| == |old(store.logs)| + 1
    ensures reply.Success? && !logUp ==> store.logs == old(store.logs)
    ensures Prepare(svc.decode(imageData)).Err? ==>
      reply == Refused(Prepare(svc.decode(imageData)).error) && steps == [Decode]
    ensures Prepare(svc.decode(imageData)).Ok? ==>
      Admitted(old(store.logs), store.logs, store.users, Out, Prepare(svc.decode(imageData)).value, svc, dbUp, logUp, reply, steps)
    ensures svc.decode(imageData).Image? && !CheckImage(svc.decode(imageData).frame) &&
            svc.decode(imageData).frame.height % 4 != 0 ==>
      reply == Refused(if svc.decode(imageData).frame.height == 1 then Crashed else Spoofing)
  {
    reply, steps := Attend(store, Out, imageData, svc, dbUp, logUp);
  }

  /**
   * `register`: an empty username is refused before anything is decoded; the
   * frame is used as decoded (no aspect normalisation, no anti-spoofing); the
   * first encoding is saved with the frame, and the reply follows `save_user`.
   */
  method Register(store: UserStore, username: string, imageData: string, svc: Services, dbUp: bool)
    returns (reply: Reply, ghost steps: seq<Step>)
    requires store.Valid()
    modifies store`users, store`nextId
    ensures store.Valid()
    ensures CheckLiveness !in steps
    ensures store.nextId == if reply.Success? then old(store.nextId) + 1 else old(store.nextId)
    ensures reply.Refused? ==> store.users == old(store.users)
    ensures username == "" ==> reply == Refused(MissingUsername) && steps == []
    ensures username != "" && svc.decode(imageData).DecodeRaised? ==> reply == Refused(Crashed) && steps == [Decode]
    ensures username != "" && svc.decode(imageData).NotAnImage? ==> reply == Refused(Undecodable) && steps == [Decode]
    ensures username != "" && svc.decode(imageData).Image? ==>
      var f := svc.decode(imageData).frame;
      var locations := svc.faces.locate(f);
      var encodings := svc.faces.encode(f, locations);
      (locations == [] ==> reply == Refused(NoFace) && steps == [Decode, LocateFaces]) &&
      (locations != [] && encodings == [] ==> reply == Refused(NoEncoding) && steps == [Decode, LocateFaces, EncodeFaces]) &&
      (locations != [] && encodings != [] ==>
        steps == [Decode, LocateFaces, EncodeFaces, InsertUser] &&
        (reply.Success? <==> dbUp && !Taken(old(store.users), username)) &&
        (reply.Success? ==>
          reply.name == username &&
          store.users == old(store.users) + [User(old(store.nextId), username, encodings[0], Some(f))]) &&
        (reply.Refused? ==> reply.failure == NotSaved))
  {
    if username == "" {
      return Refused(MissingUsername), [];
    }
    steps := [Decode];
    var decoded := svc.decode(imageData);
    if decoded.DecodeRaised? {
      return Refused(Crashed), steps;
    }
    if decoded.NotAnImage? {
      return Refused(Undecodable), steps;
    }
    var img := decoded.frame;
    steps := steps + [LocateFaces];
    var faceLocations := svc.faces.locate(img);
    if faceLocations == [] {
      return Refused(NoFace), steps;
    }
    steps := steps + [EncodeFaces];
    var faceEncodings := svc.faces.encode(img, faceLocations);
    if faceEncodings == [] {
      return Refused(NoEncoding), steps;
    }
    var faceEncoding := faceEncodings[0];
    steps := steps + [InsertUser];
    var saved := store.SaveUser(username, faceEncoding, Some(img), dbUp);
    if saved {
      reply := Success(username);
    } else {
      reply := Refused(NotSaved);
    }
  }
}
