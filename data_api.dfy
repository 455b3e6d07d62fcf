/** The survey back end: a key-value store holding one user directory and one
    data record per creator, the operations that read and write it, and the
    request handler that routes GET and POST requests to them. */
module DataApi {
  import opened Strings
  import opened SurveyTypes

  // ---------------------------------------------------------------------------
  // Store layout

  const UsersKey: string := "survey_app_users"
  const DataKeyPrefix: string := "survey_app_data_"

  /** The key of a creator's data record. */
  function DataKey(username: string): (k: string)
    ensures k != UsersKey
    ensures |k| == |DataKeyPrefix| + |username| && k[|DataKeyPrefix|..] == username
  {
    assert (DataKeyPrefix + username)[11] == 'd' && UsersKey[11] == 'u';
    assert (DataKeyPrefix + username)[|DataKeyPrefix|..] == username;
    DataKeyPrefix + username
  }

  /** Distinct usernames have distinct data keys. */
  lemma DataKeyInjective(a: string, b: string)
    requires a != b
    ensures DataKey(a) != DataKey(b)
  {
  }

  /** What the store holds under a key: the directory or a creator's record. */
  datatype StoreValue = UsersRecord(users: map<string, User>) | DataRecord(data: StoredData)

  type Store = map<string, StoreValue>

  /** `getUsers`: the directory, or the empty directory when none is stored. */
  function Directory(kv: Store): (users: map<string, User>)
    ensures UsersKey !in kv ==> users == map[]
    ensures UsersKey in kv && kv[UsersKey].UsersRecord? ==> users == kv[UsersKey].users
  {
    if UsersKey in kv && kv[UsersKey].UsersRecord? then kv[UsersKey].users else map[]
  }

  /** The creator's data record as `kv.get` returns it, when there is one. */
  function RecordOf(kv: Store, username: string): (r: Option<StoredData>)
    ensures r.Some? <==> DataKey(username) in kv && kv[DataKey(username)].DataRecord?
  {
    var k := DataKey(username);
    if k in kv && kv[k].DataRecord? then Some(kv[k].data) else None
  }

  /** The directory key holds the directory and every other key a data record. */
  ghost predicate WellTyped(kv: Store) {
    forall k | k in kv :: kv[k].UsersRecord? <==> k == UsersKey
  }

  /** Every registered creator has a data record. */
  ghost predicate DirectoryBacked(kv: Store) {
    forall u | u in Directory(kv) :: RecordOf(kv, u).Some?
  }

  // ---------------------------------------------------------------------------
  // The effect of each operation on the store, as functions of the old store

  /** The store after `saveUser` registers a new user. */
  function RegisteredStore(kv: Store, user: User): Store {
    kv[UsersKey := UsersRecord(Directory(kv)[user.username := user])]
      [DataKey(user.username) := DataRecord(InitialData)]
  }

  /** The value `getData` returns. */
  function ReadData(kv: Store, username: string): Option<StoredData> {
    match RecordOf(kv, username)
    case Some(d) => Some(d)
    case None => if username in Directory(kv) then Some(InitialData) else None
  }

  /** The store after `getData`: the default record is written on repair. */
  function StoreAfterRead(kv: Store, username: string): Store {
    if RecordOf(kv, username).None? && username in Directory(kv)
    then kv[DataKey(username) := DataRecord(InitialData)]
    else kv
  }

  /** The store after `saveData`. */
  function WrittenStore(kv: Store, username: string, data: StoredData): Store {
    kv[DataKey(username) := DataRecord(data)]
  }

  /** The store after `addResponse`. */
  function StoreAfterAppend(kv: Store, username: string, response: Response): Store {
    match ReadData(kv, username)
    case None => kv
    case Some(d) => WrittenStore(kv, username, d.(responses := d.responses + [response]))
  }

  /** `user && user.password === password_raw` */
  predicate Authenticates(kv: Store, username: string, passwordRaw: Option<string>) {
    username in Directory(kv) && Directory(kv)[username].password == passwordRaw
  }

  // ---------------------------------------------------------------------------
  // Properties of the operations

  /** Registering a new user adds exactly that directory entry and writes the
      default record for it; every other creator's record is unchanged. */
  lemma RegisterEffect(kv: Store, user: User, v: string)
    requires user.username !in Directory(kv)
    ensures Directory(RegisteredStore(kv, user)) == Directory(kv)[user.username := user]
    ensures RecordOf(RegisteredStore(kv, user), user.username) == Some(InitialData)
    ensures v != user.username ==> RecordOf(RegisteredStore(kv, user), v) == RecordOf(kv, v)
  {
    if v != user.username {
      DataKeyInjective(v, user.username);
    }
  }

  /** A registered user can log in with the password they registered with. */
  lemma RegisterThenAuthenticate(kv: Store, user: User)
    requires user.username !in Directory(kv)
    ensures Authenticates(RegisteredStore(kv, user), user.username, user.password)
  {
    RegisterEffect(kv, user, user.username);
  }

  /** `getData` in its three cases. */
  lemma GetDataCases(kv: Store, username: string)
    ensures RecordOf(kv, username).Some? ==>
      ReadData(kv, username) == RecordOf(kv, username) && StoreAfterRead(kv, username) == kv
    ensures RecordOf(kv, username).None? && username !in Directory(kv) ==>
      ReadData(kv, username).None? && StoreAfterRead(kv, username) == kv
    ensures RecordOf(kv, username).None? && username in Directory(kv) ==>
      && ReadData(kv, username) == Some(InitialData)
      && StoreAfterRead(kv, username) == WrittenStore(kv, username, InitialData)
  {
  }

  /** Reading after a repair sees the repaired record and writes nothing more. */
  lemma GetDataRepairIsStable(kv: Store, username: string)
    ensures var kv' := StoreAfterRead(kv, username);
      ReadData(kv', username) == ReadData(kv, username) && StoreAfterRead(kv', username) == kv'
  {
  }

  /** `saveData` for one creator leaves the directory and every other
      creator's record unchanged. */
  lemma SaveDataIsolated(kv: Store, username: string, data: StoredData, v: string)
    ensures RecordOf(WrittenStore(kv, username, data), username) == Some(data)
    ensures Directory(WrittenStore(kv, username, data)) == Directory(kv)
    ensures v != username ==> RecordOf(WrittenStore(kv, username, data), v) == RecordOf(kv, v)
  {
    if v != username {
      DataKeyInjective(v, username);
    }
  }

  /** `addResponse` for an owner with data appends exactly one response at the
      end and keeps the survey, the open flag and every earlier response. It
      does not look at the open flag. */
  lemma AppendEffect(kv: Store, username: string, response: Response)
    requires ReadData(kv, username).Some?
    ensures var d := ReadData(kv, username).value;
      var d' := RecordOf(StoreAfterAppend(kv, username, response), username);
      && d'.Some?
      && d'.value.responses == d.responses + [response]
      && |d'.value.responses| == |d.responses| + 1
      && d'.value.responses[..|d.responses|] == d.responses
      && d'.value.survey == d.survey
      && d'.value.isSurveyOpen == d.isSurveyOpen
    ensures Directory(StoreAfterAppend(kv, username, response)) == Directory(kv)
  {
    var d := ReadData(kv, username).value;
    SaveDataIsolated(kv, username, d.(responses := d.responses + [response]), username);
  }

  /** `addResponse` for an owner with neither a record nor a directory entry
      writes nothing. */
  lemma AppendUnknownOwner(kv: Store, username: string, response: Response)
    requires RecordOf(kv, username).None? && username !in Directory(kv)
    ensures ReadData(kv, username).None?
    ensures StoreAfterAppend(kv, username, response) == kv
  {
  }

  // ---------------------------------------------------------------------------
  // The store object

  datatype Outcome = Completed | Thrown(message: string)

  const OwnerNotFoundMessage: string := "Survey owner not found."

  class KvStore {
    var kv: Store

    constructor (initial: Store)
      ensures kv == initial
    {
      kv := initial;
    }

    /** `saveUser`: fetches the directory, rejects a taken username, adds the
        user to the fetched directory and writes it back, then writes the
        default record. */
    method SaveUser(user: User) returns (ok: bool)
      modifies this
      ensures ok == (user.username !in Directory(old(kv)))
      ensures kv == if ok then RegisteredStore(old(kv), user) else old(kv)
    {
      var users := Directory(kv);
      if user.username in users {
        return false;
      }
      users := users[user.username := user];
      kv := kv[UsersKey := UsersRecord(users)];
      kv := kv[DataKey(user.username) := DataRecord(InitialData)];
      return true;
    }

    /** `authenticateUser`: plain comparison of the stored password; the
        store is not modified. */
    method AuthenticateUser(username: string, passwordRaw: Option<string>) returns (ok: bool)
      ensures ok <==> username in Directory(kv) && Directory(kv)[username].password == passwordRaw
    {
      var users := Directory(kv);
      var user := LookupUser(users, username);
      ok := user.Some? && user.value.password == passwordRaw;
    }

    /** `getData`: the stored record, or the default record written on the
        spot for a registered creator without one, or nothing. */
    method GetData(username: string) returns (data: Option<StoredData>)
      modifies this
      ensures data == ReadData(old(kv), username)
      ensures kv == StoreAfterRead(old(kv), username)
    {
      var k := DataKey(username);
      if k in kv && kv[k].DataRecord? {
        return Some(kv[k].data);
      }
      var users := Directory(kv);
      if username !in users {
        return None;
      }
      kv := kv[k := DataRecord(InitialData)];
      return Some(InitialData);
    }

    /** `saveData`: unconditional overwrite of the creator's record. */
    method SaveData(username: string, data: StoredData)
      modifies this
      ensures kv == WrittenStore(old(kv), username, data)
    {
      kv := kv[DataKey(username) := DataRecord(data)];
    }

    /** `addResponse`: the response gets the two clock readings as its id and
        submission time, is pushed onto the record's responses and the record
        is written back; an unknown owner throws. */
    method AddResponse(username: string, answers: Answers, idTime: nat, submittedTime: nat)
      returns (outcome: Outcome)
      modifies this
      ensures outcome == if ReadData(old(kv), username).Some? then Completed else Thrown(OwnerNotFoundMessage)
      ensures kv == StoreAfterAppend(old(kv), username, Response(idTime, submittedTime, answers))
    {
      var data := GetData(username);
      if data.None? {
        return Thrown(OwnerNotFoundMessage);
      }
      var d := data.value;
      d := d.(responses := d.responses + [Response(idTime, submittedTime, answers)]);
      SaveData(username, d);
      return Completed;
    }

    /** The request handler, run against this store. */
    method Handle(req: Request, idTime: nat, submittedTime: nat) returns (resp: HttpResponse)
      modifies this
      ensures resp == HandleSpec(old(kv), req, idTime, submittedTime).response
      ensures kv == HandleSpec(old(kv), req, idTime, submittedTime).store
    {
      if req.httpMethod == "GET" {
        if Present(req.xUsername) {
          var data := GetData(req.xUsername.value);
          return HttpResponse(200, DataBody(data));
        }
        if Present(req.id) {
          var data := GetData(req.id.value);
          if data.Some? && data.value.survey.Some? {
            return HttpResponse(200, PublicBody(data.value.survey.value, data.value.isSurveyOpen));
          }
          return HttpResponse(404, ErrorBody(SurveyNotFoundMessage));
        }
        return HttpResponse(400, ErrorBody(MissingIdentityMessage));
      }
      if req.httpMethod == "POST" {
        if req.body.None? {
          return HttpResponse(500, UnreadableBody);
        }
        var action, payload := req.body.value.action, req.body.value.payload;
        if action == "saveUser" {
          var success := SaveUser(User(payload.username, payload.password));
          if !success {
            return HttpResponse(409, ErrorBody(UsernameTakenMessage));
          }
          return HttpResponse(201, SuccessBody);
        } else if action == "authenticateUser" {
          var authenticated := AuthenticateUser(payload.username, payload.passwordRaw);
          if !authenticated {
            return HttpResponse(401, ErrorBody(BadCredentialsMessage));
          }
          return HttpResponse(200, SuccessBody);
        } else if action == "saveData" {
          if !Present(req.xUsername) {
            return HttpResponse(400, ErrorBody(MissingHeaderMessage));
          }
          SaveData(req.xUsername.value, PayloadData(payload));
          return HttpResponse(200, SuccessBody);
        } else if action == "addResponse" {
          if !Present(payload.ownerUsername) || payload.answers.None? {
            return HttpResponse(400, ErrorBody(InvalidPayloadMessage));
          }
          var outcome := AddResponse(payload.ownerUsername.value, payload.answers.value, idTime, submittedTime);
          if outcome.Thrown? {
            return HttpResponse(500, ErrorBody(outcome.message));
          }
          return HttpResponse(200, SuccessBody);
        } else {
          return HttpResponse(400, ErrorBody(InvalidActionMessage));
        }
      }
      return HttpResponse(405, NotAllowedBody("Method " + req.httpMethod + " Not Allowed", AllowedMethods));
    }
  }

  /** `users[username]` as an optional value. */
  function LookupUser(users: map<string, User>, username: string): (r: Option<User>)
    ensures r.Some? <==> username in users
    ensures r.Some? ==> r.value == users[username]
  {
    if username in users then Some(users[username]) else None
  }

  // ---------------------------------------------------------------------------
  // Requests and responses

  /** The JSON payload of a POST. Each action reads its own fields: `saveUser`
      the user (`username`, `password`), `authenticateUser` `username` and
      `password_raw`, `saveData` the record fields, `addResponse`
      `ownerUsername` and `answers`. */
  datatype Payload = Payload(
    username: string,
    password: Option<string>,
    passwordRaw: Option<string>,
    ownerUsername: Option<string>,
    answers: Option<Answers>,
    survey: Option<Survey>,
    responses: seq<Response>,
    isSurveyOpen: bool)

  datatype PostBody = PostBody(action: string, payload: Payload)

  /** A request: its method, the `x-username` header, the `id` query
      parameter, and the parsed JSON body (None when it does not parse). */
  datatype Request = Request(httpMethod: string, xUsername: Option<string>, id: Option<string>, body: Option<PostBody>)

  datatype ResponseBody =
    | DataBody(data: Option<StoredData>)
    | PublicBody(survey: Survey, isSurveyOpen: bool)
    | SuccessBody
    | ErrorBody(error: string)
    | NotAllowedBody(text: string, allow: string)
    | UnreadableBody

  datatype HttpResponse = HttpResponse(status: int, body: ResponseBody)

  const SurveyNotFoundMessage: string := "لم يتم العثور على الاستبيان."
  const MissingIdentityMessage: string := "Username header or survey ID is required"
  const UsernameTakenMessage: string := "اسم المستخدم هذا موجود بالفعل."
  const BadCredentialsMessage: string := "اسم المستخدم أو كلمة المرور غير صحيحة."
  const MissingHeaderMessage: string := "Username header is required"
  const InvalidPayloadMessage: string := "Invalid response payload"
  const InvalidActionMessage: string := "Invalid action"
  const AllowedMethods: string := "GET, POST"

  /** A header or query value that JavaScript treats as present: there, and
      not the empty string. */
  predicate Present(v: Option<string>) {
    v.Some? && v.value != ""
  }

  /** The record a `saveData` payload carries. */
  function PayloadData(p: Payload): StoredData {
    StoredData(p.survey, p.responses, p.isSurveyOpen)
  }

  /** What the handler decides from the request alone. */
  datatype Route =
    | Reply(response: HttpResponse)
    | ReadOwn(username: string)
    | ReadPublic(owner: string)
    | Register(user: User)
    | Login(username: string, passwordRaw: Option<string>)
    | Overwrite(username: string, data: StoredData)
    | Append(owner: string, answers: Answers)

  function RouteOf(req: Request): (r: Route)
    ensures r.Reply? && req.httpMethod == "GET" ==> r.response.status == 400
    ensures req.httpMethod != "GET" && req.httpMethod != "POST" ==> r.Reply? && r.response.status == 405
  {
    if req.httpMethod == "GET" then
      if Present(req.xUsername) then ReadOwn(req.xUsername.value)
      else if Present(req.id) then ReadPublic(req.id.value)
      else Reply(HttpResponse(400, ErrorBody(MissingIdentityMessage)))
    else if req.httpMethod == "POST" then
      match req.body
      case None => Reply(HttpResponse(500, UnreadableBody))
      case Some(PostBody(action, p)) =>
        if action == "saveUser" then Register(User(p.username, p.password))
        else if action == "authenticateUser" then Login(p.username, p.passwordRaw)
        else if action == "saveData" then
          if Present(req.xUsername) then Overwrite(req.xUsername.value, PayloadData(p))
          else Reply(HttpResponse(400, ErrorBody(MissingHeaderMessage)))
        else if action == "addResponse" then
          if !Present(p.ownerUsername) || p.answers.None? then Reply(HttpResponse(400, ErrorBody(InvalidPayloadMessage)))
          else Append(p.ownerUsername.value, p.answers.value)
        else Reply(HttpResponse(400, ErrorBody(InvalidActionMessage)))
    else
      Reply(HttpResponse(405, NotAllowedBody("Method " + req.httpMethod + " Not Allowed", AllowedMethods)))
  }

  /** The reply to a public survey request. */
  function PublicReply(data: Option<StoredData>): (r: HttpResponse)
    ensures r.status == 200 || r.status == 404
    ensures r.status == 200 <==> data.Some? && data.value.survey.Some?
    ensures r.status == 200 ==> r.body == PublicBody(data.value.survey.value, data.value.isSurveyOpen)
  {
    if data.Some? && data.value.survey.Some? then
      HttpResponse(200, PublicBody(data.value.survey.value, data.value.isSurveyOpen))
    else
      HttpResponse(404, ErrorBody(SurveyNotFoundMessage))
  }

  datatype Step = Step(response: HttpResponse, store: Store)

  /** The handler's reply and the store it leaves, for a request against a
      store, with the clock readings `addResponse` would take. */
  function HandleSpec(kv: Store, req: Request, idTime: nat, submittedTime: nat): (r: Step)
    ensures kv.Keys <= r.store.Keys
    ensures r.response.status !in {200, 201, 404} ==> r.store == kv
    ensures r.response.status != 201 ==> Directory(r.store) == Directory(kv)
    ensures r.response.status == 201 ==> Directory(kv).Keys < Directory(r.store).Keys
  {
    match RouteOf(req)
    case Reply(r) => Step(r, kv)
    case ReadOwn(u) => Step(HttpResponse(200, DataBody(ReadData(kv, u))), StoreAfterRead(kv, u))
    case ReadPublic(o) => Step(PublicReply(ReadData(kv, o)), StoreAfterRead(kv, o))
    case Register(user) =>
      if user.username in Directory(kv) then Step(HttpResponse(409, ErrorBody(UsernameTakenMessage)), kv)
      else Step(HttpResponse(201, SuccessBody), RegisteredStore(kv, user))
    case Login(u, pw) =>
      if Authenticates(kv, u, pw) then Step(HttpResponse(200, SuccessBody), kv)
      else Step(HttpResponse(401, ErrorBody(BadCredentialsMessage)), kv)
    case Overwrite(u, d) => Step(HttpResponse(200, SuccessBody), WrittenStore(kv, u, d))
    case Append(o, a) =>
      if ReadData(kv, o).Some? then
        Step(HttpResponse(200, SuccessBody), StoreAfterAppend(kv, o, Response(idTime, submittedTime, a)))
      else Step(HttpResponse(500, ErrorBody(OwnerNotFoundMessage)), kv)
  }

  // ---------------------------------------------------------------------------
  // Properties of the handler

  /** A GET with the `x-username` header returns that creator's full record,
      whatever the `id` parameter says. */
  lemma GetHeaderTakesPrecedence(kv: Store, req: Request, otherId: Option<string>, t1: nat, t2: nat)
    requires req.httpMethod == "GET" && Present(req.xUsername)
    ensures HandleSpec(kv, req, t1, t2) == HandleSpec(kv, req.(id := otherId), t1, t2)
    ensures HandleSpec(kv, req, t1, t2).response == HttpResponse(200, DataBody(ReadData(kv, req.xUsername.value)))
  {
  }

  /** A public GET by `id` returns only the survey and the open flag, never
      the responses, with 200; without a survey it is a 404. */
  lemma PublicGetHidesResponses(kv: Store, req: Request, t1: nat, t2: nat)
    requires req.httpMethod == "GET" && !Present(req.xUsername) && Present(req.id)
    ensures var r := HandleSpec(kv, req, t1, t2).response;
      var d := ReadData(kv, req.id.value);
      && !r.body.DataBody?
      && (r.status == 200 <==> d.Some? && d.value.survey.Some?)
      && (r.status == 200 ==> r.body == PublicBody(d.value.survey.value, d.value.isSurveyOpen))
      && (r.status != 200 ==> r == HttpResponse(404, ErrorBody(SurveyNotFoundMessage)))
  {
  }

  /** A GET with neither the header nor `id` is a 400 and writes nothing. */
  lemma GetWithoutIdentity(kv: Store, req: Request, t1: nat, t2: nat)
    requires req.httpMethod == "GET" && !Present(req.xUsername) && !Present(req.id)
    ensures HandleSpec(kv, req, t1, t2) == Step(HttpResponse(400, ErrorBody(MissingIdentityMessage)), kv)
  {
  }

  /** A POST whose action is none of the four handled ones is a 400 and
      writes nothing. */
  lemma UnknownActionRejected(kv: Store, req: Request, t1: nat, t2: nat)
    requires req.httpMethod == "POST" && req.body.Some?
    requires req.body.value.action !in {"saveUser", "authenticateUser", "saveData", "addResponse"}
    ensures HandleSpec(kv, req, t1, t2) == Step(HttpResponse(400, ErrorBody(InvalidActionMessage)), kv)
  {
  }

  /** In particular the client's `createSurvey` request is rejected. */
  lemma CreateSurveyRejected(kv: Store, req: Request, t1: nat, t2: nat)
    requires req.httpMethod == "POST" && req.body.Some? && req.body.value.action == "createSurvey"
    ensures HandleSpec(kv, req, t1, t2).response.status == 400
    ensures HandleSpec(kv, req, t1, t2).store == kv
  {
    UnknownActionRejected(kv, req, t1, t2);
  }

  /** `saveData` without the header is a 400 and writes nothing. */
  lemma SaveDataNeedsHeader(kv: Store, req: Request, t1: nat, t2: nat)
    requires req.httpMethod == "POST" && req.body.Some? && req.body.value.action == "saveData"
    requires !Present(req.xUsername)
    ensures HandleSpec(kv, req, t1, t2) == Step(HttpResponse(400, ErrorBody(MissingHeaderMessage)), kv)
  {
  }

  /** `addResponse` without an owner or without answers is a 400 and writes
      nothing. */
  lemma AddResponseNeedsFields(kv: Store, req: Request, t1: nat, t2: nat)
    requires req.httpMethod == "POST" && req.body.Some? && req.body.value.action == "addResponse"
    requires !Present(req.body.value.payload.ownerUsername) || req.body.value.payload.answers.None?
    ensures HandleSpec(kv, req, t1, t2) == Step(HttpResponse(400, ErrorBody(InvalidPayloadMessage)), kv)
  {
  }

  /** `addResponse` for an owner with neither a record nor a directory entry
      is a 500 carrying the thrown message, and writes nothing. */
  lemma AddResponseUnknownOwner(kv: Store, req: Request, t1: nat, t2: nat)
    requires req.httpMethod == "POST" && req.body.Some? && req.body.value.action == "addResponse"
    requires var p := req.body.value.payload;
      Present(p.ownerUsername) && p.answers.Some?
      && RecordOf(kv, p.ownerUsername.value).None? && p.ownerUsername.value !in Directory(kv)
    ensures HandleSpec(kv, req, t1, t2) == Step(HttpResponse(500, ErrorBody(OwnerNotFoundMessage)), kv)
  {
  }

  /** Any method other than GET and POST is a 405 naming the allowed methods. */
  lemma OtherMethodsNotAllowed(kv: Store, req: Request, t1: nat, t2: nat)
    requires req.httpMethod != "GET" && req.httpMethod != "POST"
    ensures var s := HandleSpec(kv, req, t1, t2);
      s.response.status == 405 && s.response.body.allow == AllowedMethods && s.store == kv
  {
  }

  function SaveUserRequest(user: User): Request {
    Request("POST", None, None, Some(PostBody("saveUser",
      Payload(user.username, user.password, None, None, None, None, [], false))))
  }

  function AddResponseRequest(owner: string, answers: Answers): Request {
    Request("POST", None, None, Some(PostBody("addResponse",
      Payload("", None, None, Some(owner), Some(answers), None, [], false))))
  }

  function GetOwnRequest(username: string): Request {
    Request("GET", Some(username), None, None)
  }

  /** Registering the same username twice: the second attempt is a 409 and
      the directory keeps the first credential. */
  lemma RegisterTwice(kv: Store, first: User, second: User, t1: nat, t2: nat)
    requires first.username == second.username
    requires first.username !in Directory(kv)
    ensures var s1 := HandleSpec(kv, SaveUserRequest(first), t1, t2);
      var s2 := HandleSpec(s1.store, SaveUserRequest(second), t1, t2);
      && s1.response.status == 201
      && s2.response.status == 409
      && s2.store == s1.store
      && Directory(s2.store)[first.username] == first
  {
    RegisterEffect(kv, first, first.username);
  }

  /** Right after registering, the creator's record is the default one. */
  lemma RegisterThenFetch(kv: Store, user: User, t1: nat, t2: nat)
    requires user.username != "" && user.username !in Directory(kv)
    ensures var s1 := HandleSpec(kv, SaveUserRequest(user), t1, t2);
      HandleSpec(s1.store, GetOwnRequest(user.username), t1, t2).response
        == HttpResponse(200, DataBody(Some(InitialData)))
  {
    RegisterEffect(kv, user, user.username);
  }

  /** Two sequential responses for an owner with data are both kept, in order. */
  lemma TwoResponsesAppended(kv: Store, owner: string, a1: Answers, a2: Answers, t1: nat, t2: nat, t3: nat, t4: nat)
    requires owner != "" && ReadData(kv, owner).Some?
    ensures var s1 := HandleSpec(kv, AddResponseRequest(owner, a1), t1, t2);
      var s2 := HandleSpec(s1.store, AddResponseRequest(owner, a2), t3, t4);
      && s1.response.status == 200 && s2.response.status == 200
      && RecordOf(s2.store, owner).Some?
      && RecordOf(s2.store, owner).value.responses
         == ReadData(kv, owner).value.responses + [Response(t1, t2, a1), Response(t3, t4, a2)]
  {
    var r1 := Response(t1, t2, a1);
    AppendEffect(kv, owner, r1);
    var kv1 := StoreAfterAppend(kv, owner, r1);
    assert ReadData(kv1, owner) == RecordOf(kv1, owner);
    AppendEffect(kv1, owner, Response(t3, t4, a2));
  }

  /** The handler keeps the store well typed and every registered creator
      backed by a data record. */
  lemma HandlePreservesInvariants(kv: Store, req: Request, t1: nat, t2: nat)
    requires WellTyped(kv) && DirectoryBacked(kv)
    ensures WellTyped(HandleSpec(kv, req, t1, t2).store)
    ensures DirectoryBacked(HandleSpec(kv, req, t1, t2).store)
  {
    var kv' := HandleSpec(kv, req, t1, t2).store;
    match RouteOf(req)
    case Reply(_) =>
    case Login(_, _) =>
    case ReadOwn(u) => WriteKeepsBacked(kv, u, InitialData);
    case ReadPublic(o) => WriteKeepsBacked(kv, o, InitialData);
    case Overwrite(u, d) => WriteKeepsBacked(kv, u, d);
    case Append(o, a) =>
      if ReadData(kv, o).Some? {
        var d := ReadData(kv, o).value;
        WriteKeepsBacked(kv, o, d.(responses := d.responses + [Response(t1, t2, a)]));
      }
    case Register(user) =>
      if user.username !in Directory(kv) {
        forall u | u in Directory(kv') ensures RecordOf(kv', u).Some? {
          RegisterEffect(kv, user, u);
        }
      }
  }

  /** Writing one creator's record keeps both invariants. */
  lemma WriteKeepsBacked(kv: Store, username: string, data: StoredData)
    requires WellTyped(kv) && DirectoryBacked(kv)
    ensures WellTyped(WrittenStore(kv, username, data))
    ensures DirectoryBacked(WrittenStore(kv, username, data))
  {
    var kv' := WrittenStore(kv, username, data);
    forall u | u in Directory(kv') ensures RecordOf(kv', u).Some? {
      SaveDataIsolated(kv, username, data, u);
    }
  }

  /** Under the invariants, `getData` finds a record exactly for registered
      creators or creators with a record, and never has to repair. */
  lemma BackedReadNeedsNoRepair(kv: Store, username: string)
    requires DirectoryBacked(kv)
    ensures StoreAfterRead(kv, username) == kv
    ensures ReadData(kv, username) == RecordOf(kv, username)
  {
  }
}
