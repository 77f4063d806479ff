/**
 * The InstagramAPI object (api/InstagramAPI.kt): the session life cycle
 * (prepare, login, logout), the checkpoint challenge, and the calls whose
 * payloads are built locally (watchReels, archiveMedia, sendDirectItem).
 *
 * Every server round trip is an input: a `Reaction` gives the response the
 * server sends and what the interactive two-factor and challenge flows would
 * return if `send` started them. The route texts of the Routes object and the
 * base URL are parameters.
 */
module InstagramApi {
  import opened Wrappers
  import opened Strings
  import opened Json
  import opened Crypto
  import opened FileSystem
  import opened CookiePersistor
  import opened Session
  import opened Request
  import opened Challenge
  import opened Reels
  import opened Direct

  /** How an operation ends: a value, an exception, or `exitProcess(code)`. */
  datatype Outcome<T> = Done(value: T) | Throws(exception: string) | Exits(code: int)

  /** One server round trip, as `send` sees it. */
  datatype Reaction = Reaction(response: Response, twoFactor: bool, challenge: bool)

  /**
   * Everything a round trip can change: the dispatcher's request, the
   * session's counters and last reply, and the files on disk.
   */
  datatype Traffic = Traffic(url: string, data: string, isGet: bool, headers: map<string, string>,
                             cookies: Option<map<string, string>>, totalRequests: int,
                             lastResponse: Option<Response>, statusCode: int, lastJSON: Option<Reply>,
                             files: map<string, string>)

  /** The base URL of watchReels. */
  const API_V2_URL := "https://i.instagram.com/api/v2/"

  /** `jar.getCookie(name)?.value.toString()`: "null" for a missing cookie. */
  function CookieText(jar: map<string, string>, name: string): (r: string)
    ensures name in jar ==> r == jar[name]
    ensures name !in jar ==> r == "null"
  {
    ShowOrNull(if name in jar then Some(jar[name]) else None)
  }

  /** `status` of an account blob, compared ignoring case. */
  predicate IsOk(status: string) {
    ToLower(status) == "ok"
  }

  /** The reply closes the challenge: `action == "close"` and `status == "ok"`. */
  predicate Closed(reply: Option<Reply>) {
    reply.Some? && reply.value.action == Some("close") && reply.value.status == Some("ok")
  }

  /** `$.challenge.api_path` of the last reply, when it is there. */
  function ChallengePath(reply: Option<Reply>): Option<string> {
    if reply.Some? then reply.value.challengePath else None
  }

  /** The archive action: "undo_only_me" to undo, "only_me" otherwise. */
  function ArchiveAction(undo: bool): (r: string)
    ensures r == "undo_only_me" <==> undo
    ensures r == "only_me" <==> !undo
  {
    if undo then "undo_only_me" else "only_me"
  }

  /** A `readLine()?.toInt()` answer: None for end of input, or the number; throws on anything else. */
  function ReadInt(line: Option<string>): Outcome<Option<int>> {
    match line
    case None => Done(None)
    case Some(l) =>
      match ParseInt(l)
      case None => Throws("NumberFormatException")
      case Some(n) => Done(Some(n))
  }

  /** The JSON text `{"name": n}`, or `{}` when `n` is null (org.json drops a null value). */
  function SingleField(name: string, n: Option<int>): string {
    Render(JObject(PutOrRemove([], name, if n.Some? then Some(JNum(n.value)) else None)))
  }

  /** The `reels` object of watchReels: each key maps to a one-element list. */
  function ReelsJson(report: seq<(string, seq<string>)>): Value {
    JObject(seq(|report|, i requires 0 <= i < |report| =>
      (report[i].0, JList(seq(|report[i].1|, j requires 0 <= j < |report[i].1| => JStr(report[i].1[j]))))))
  }

  /** The form khttp sends for a map: every value as its `toString()`, later keys over earlier ones. */
  function FormMap(fields: seq<(string, FormValue)>): map<string, string> {
    if fields == [] then map[]
    else
      var n := |fields| - 1;
      FormMap(fields[..n])[fields[n].0 := ShowValue(fields[n].1)]
  }

  /** Every field's key is in the form. */
  lemma {:induction false} FormMapHasKeys(fields: seq<(string, FormValue)>)
    ensures forall i | 0 <= i < |fields| :: fields[i].0 in FormMap(fields)
  {
    if fields != [] {
      var n := |fields| - 1;
      var front := fields[..n];
      FormMapHasKeys(front);
      forall i | 0 <= i < n ensures fields[i].0 in FormMap(fields) {
        assert front[i] == fields[i];
      }
    }
  }

  /** Every key of the form is some field's key. */
  lemma {:induction false} FormMapOnlyKeys(fields: seq<(string, FormValue)>, k: string)
    requires k in FormMap(fields)
    ensures exists i | 0 <= i < |fields| :: fields[i].0 == k
  {
    var n := |fields| - 1;
    if fields[n].0 != k {
      var front := fields[..n];
      FormMapOnlyKeys(front, k);
      var i :| 0 <= i < n && front[i].0 == k;
      assert fields[i].0 == k;
    }
  }

  /** A key that no later field puts again holds the text of its field's value. */
  lemma {:induction false} FormMapLastWins(fields: seq<(string, FormValue)>, i: nat)
    requires i < |fields| && forall j | i < j < |fields| :: fields[j].0 != fields[i].0
    ensures fields[i].0 in FormMap(fields) && FormMap(fields)[fields[i].0] == ShowValue(fields[i].1)
  {
    var n := |fields| - 1;
    if i < n {
      var front := fields[..n];
      assert front[i] == fields[i];
      assert forall j | i < j < n :: front[j] == fields[j];
      FormMapLastWins(front, i);
    }
  }

  class InstagramApi {
    const session: Session
    const request: Request
    const disk: Disk
    var persistor: CookiePersistor
    const apiUrl: string
    const keys: Keys
    const hmac: (string, string) -> Option<nat>

    predicate Valid()
      reads this, session, request, persistor
    {
      session.Valid() && request.Valid() && persistor.disk == disk
    }

    /** The state a round trip may change (the frame of Dispatch). */
    function Wire(): Traffic
      reads this, request, session, disk
    {
      Traffic(request.url, request.data, request.isGet, request.headers, request.persistedCookies,
              session.totalRequests, session.lastResponse, session.statusCode, session.lastJSON, disk.files)
    }

    /** The object at start-up, with a persistor over the empty file name. */
    constructor(disk: Disk, defaultHeaders: map<string, string>, apiUrl: string, keys: Keys,
                hmac: (string, string) -> Option<nat>)
      ensures Valid() && fresh(session) && fresh(request)
      ensures this.disk == disk && this.apiUrl == apiUrl && this.keys == keys && this.hmac == hmac
      ensures !session.isLoggedIn && session.userId == "" && session.token == "-" && session.rankToken == "-"
      ensures session.totalRequests == 0 && request.persistedCookies == None && request.headers == defaultHeaders
      ensures persistor.resource == ""
    {
      session := new Session();
      request := new Request(defaultHeaders);
      persistor := new CookiePersistor("", disk);
      this.disk := disk;
      this.apiUrl := apiUrl;
      this.keys := keys;
      this.hmac := hmac;
    }

    /**
     * `request.prepare(endpoint, payload, API_URL = url).send(isLogin)`: the
     * dispatcher's state and the session's after one round trip.
     */
    method Dispatch(endpoint: Option<string>, payload: string, isLogin: bool, url: string, x: Reaction)
      returns (r: Sent)
      requires Valid()
      modifies request`url, request`data, request`isGet, request`headers, request`persistedCookies,
               session`totalRequests, session`lastResponse, session`statusCode, session`lastJSON, disk
      ensures Valid()
      ensures request.url == url + ShowOrNull(endpoint) && request.data == payload
      ensures (request.isGet <==> payload == "") && request.headers == old(request.headers)
      ensures !old(session.isLoggedIn) && !isLogin ==>
                r == NotLoggedIn && request.persistedCookies == old(request.persistedCookies) &&
                disk.files == old(disk.files) &&
                session.totalRequests == old(session.totalRequests) &&
                session.lastResponse == old(session.lastResponse) &&
                session.statusCode == old(session.statusCode) && session.lastJSON == old(session.lastJSON)
      ensures old(session.isLoggedIn) || isLogin ==>
                r == Returned(Verdict(x.response, x.twoFactor, x.challenge)) &&
                request.persistedCookies == Some(MergeCookies(old(request.persistedCookies), x.response.cookies)) &&
                session.totalRequests == IntSucc(old(session.totalRequests)) &&
                session.lastResponse == Some(x.response) && session.statusCode == x.response.statusCode &&
                session.lastJSON == NextLastJson(old(session.lastJSON), x.response) &&
                disk.files == (if AsksRelogin(x.response) then old(disk.files) - {session.username} else old(disk.files))
    {
      request.Prepare(endpoint, payload, None, None, url);
      var call;
      r, call := request.Send(isLogin, session, disk, keys, hmac, x.response, x.twoFactor, x.challenge);
    }

    /**
     * prepare: a device id from the MD5 digest of the user name (throws when
     * its hex text is shorter than 16 digits), a fresh dashed UUID, and a
     * persistor on the file named after the user. When that file is there and
     * its account blob says "ok" in any case, the saved jar becomes the
     * dispatcher's cookies and the session is logged in with the ids the jar
     * holds. `statusOf(blob)` is `JSONObject(blob).getString("status")`,
     * None where that throws.
     */
    method Prepare(md5Digest: Option<nat>, random: string, statusOf: string -> Option<string>)
      returns (r: Outcome<()>)
      requires Valid()
      modifies this`persistor, session`deviceId, session`uuid, session`isLoggedIn, session`userId,
               session`token, session`rankToken, request`persistedCookies
      ensures Valid()
      ensures GenerateDeviceId(md5Digest).None? ==>
                r == Throws("StringIndexOutOfBoundsException") && persistor == old(persistor) &&
                session.deviceId == old(session.deviceId) && session.uuid == old(session.uuid)
      ensures GenerateDeviceId(md5Digest).Some? ==>
                session.deviceId == GenerateDeviceId(md5Digest).value && session.uuid == GenerateUuid(true, random) &&
                persistor.resource == session.username && fresh(persistor)
      ensures LogsIn(md5Digest, disk.files, session.username, statusOf) ==>
                r == Done(()) && session.isLoggedIn &&
                request.persistedCookies == Some(Saved(disk.files, session.username).value.cookieJar)
      ensures LogsIn(md5Digest, disk.files, session.username, statusOf) ==>
                var jar := Saved(disk.files, session.username).value.cookieJar;
                session.userId == CookieText(jar, "ds_user_id") && session.token == CookieText(jar, "csrftoken") &&
                session.rankToken == session.userId + "_" + session.uuid
      ensures !LogsIn(md5Digest, disk.files, session.username, statusOf) ==>
                session.isLoggedIn == old(session.isLoggedIn) &&
                request.persistedCookies == old(request.persistedCookies) &&
                session.userId == old(session.userId) && session.token == old(session.token) &&
                session.rankToken == old(session.rankToken)
      ensures GenerateDeviceId(md5Digest).Some? && !LogsIn(md5Digest, disk.files, session.username, statusOf) ==>
                (r == Done(()) <==> session.username !in disk.files ||
                                    SavedStatus(disk.files, session.username, statusOf).Some?)
      ensures GenerateDeviceId(md5Digest).Some? && session.username in disk.files &&
              Saved(disk.files, session.username).Failure? ==>
                r == Throws(Saved(disk.files, session.username).exception)
    {
      var deviceId := GenerateDeviceId(md5Digest);
      if deviceId.None? {
        r := Throws("StringIndexOutOfBoundsException");
      } else {
        session.deviceId := deviceId.value;
        session.uuid := GenerateUuid(true, random);
        persistor := new CookiePersistor(session.username, disk);
        r := RestoreLogin(statusOf);
      }
    }

    /** The part of prepare after the persistor is made: restore a saved login if there is one. */
    method RestoreLogin(statusOf: string -> Option<string>) returns (r: Outcome<()>)
      requires Valid()
      modifies session`isLoggedIn, session`userId, session`token, session`rankToken, request`persistedCookies
      ensures Valid()
      ensures var status := SavedStatus(disk.files, persistor.resource, statusOf);
              status.Some? && IsOk(status.value) ==>
                r == Done(()) && session.isLoggedIn &&
                request.persistedCookies == Some(Saved(disk.files, persistor.resource).value.cookieJar)
      ensures var status := SavedStatus(disk.files, persistor.resource, statusOf);
              status.Some? && IsOk(status.value) ==>
                var jar := Saved(disk.files, persistor.resource).value.cookieJar;
                session.userId == CookieText(jar, "ds_user_id") && session.token == CookieText(jar, "csrftoken") &&
                session.rankToken == session.userId + "_" + session.uuid
      ensures var status := SavedStatus(disk.files, persistor.resource, statusOf);
              !(status.Some? && IsOk(status.value)) ==>
                session.isLoggedIn == old(session.isLoggedIn) &&
                request.persistedCookies == old(request.persistedCookies) &&
                session.userId == old(session.userId) && session.token == old(session.token) &&
                session.rankToken == old(session.rankToken) &&
                (r == Done(()) <==> persistor.resource !in disk.files || SavedStatus(disk.files, persistor.resource, statusOf).Some?)
      ensures persistor.resource in disk.files && Saved(disk.files, persistor.resource).Failure? ==>
                r == Throws(Saved(disk.files, persistor.resource).exception)
    {
      var present := persistor.Exist();
      if !present {
        return Done(());
      }
      var cookieDisk := LoadSaved();
      if cookieDisk.Failure? {
        return Throws(cookieDisk.exception);
      }
      var status := statusOf(cookieDisk.value.account);
      if status.None? {
        return Throws("JSONException");
      }
      if IsOk(status.value) {
        var jar := cookieDisk.value.cookieJar;
        request.persistedCookies := Some(jar);
        session.isLoggedIn := true;
        session.userId := CookieText(jar, "ds_user_id");
        session.token := CookieText(jar, "csrftoken");
        session.rankToken := session.userId + "_" + session.uuid;
      }
      return Done(());
    }

    /** `cookiePersistor.load()`, as Saved states it. */
    method LoadSaved() returns (r: Result<CookieDisk>)
      requires Valid()
      ensures r == Saved(disk.files, persistor.resource)
    {
      r := persistor.Load();
    }

    /**
     * saveSuccessfulLogin: saves the last response's text and cookies to the
     * session file, then logs in when that text's status is "ok" in any case.
     */
    method SaveSuccessfulLogin(response: Response, statusOf: string -> Option<string>) returns (r: Outcome<()>)
      requires Valid()
      modifies disk, session`isLoggedIn, session`userId, session`token, session`rankToken
      ensures Valid()
      ensures exists names :: Enumerates(names, response.cookies.Keys) &&
                disk.files == old(disk.files)[persistor.resource := Record(response.text, EntryTexts(names, response.cookies))]
      ensures statusOf(response.text).None? ==> r == Throws("JSONException")
      ensures statusOf(response.text).Some? ==> r == Done(())
      ensures var loggedIn := statusOf(response.text).Some? && IsOk(statusOf(response.text).value);
              (loggedIn ==>
                 session.isLoggedIn && session.userId == CookieText(response.cookies, "ds_user_id") &&
                 session.token == CookieText(response.cookies, "csrftoken") &&
                 session.rankToken == session.userId + "_" + session.uuid) &&
              (!loggedIn ==>
                 session.isLoggedIn == old(session.isLoggedIn) && session.userId == old(session.userId) &&
                 session.token == old(session.token) && session.rankToken == old(session.rankToken))
    {
      persistor.Save(response.text, response.cookies);
      var status := statusOf(response.text);
      if status.None? {
        return Throws("JSONException");
      }
      if IsOk(status.value) {
        session.isLoggedIn := true;
        session.userId := CookieText(response.cookies, "ds_user_id");
        session.token := CookieText(response.cookies, "csrftoken");
        session.rankToken := session.userId + "_" + session.uuid;
      }
      return Done(());
    }

    /**
     * login: nothing happens when already logged in and not forced. Otherwise
     * the login request goes out; on success the login is saved and true
     * returned, on failure the process exits with status 1.
     */
    method Login(username: string, password: string, forceLogin: bool, loginRoute: string, x: Reaction,
                 statusOf: string -> Option<string>)
      returns (r: Outcome<bool>)
      requires Valid()
      modifies request`url, request`data, request`isGet, request`headers, request`persistedCookies,
               session`totalRequests, session`lastResponse, session`statusCode, session`lastJSON, disk,
               session`isLoggedIn, session`userId, session`token, session`rankToken
      ensures Valid()
      ensures old(session.isLoggedIn) && !forceLogin ==>
                r == Done(false) && disk.files == old(disk.files) &&
                session.totalRequests == old(session.totalRequests) && session.lastJSON == old(session.lastJSON) &&
                request.persistedCookies == old(request.persistedCookies) && request.url == old(request.url)
      ensures !old(session.isLoggedIn) || forceLogin ==>
                session.totalRequests == IntSucc(old(session.totalRequests)) &&
                request.data == LoginPayload(username, password, session.deviceId, session.uuid) &&
                (r == Exits(1) <==> !Verdict(x.response, x.twoFactor, x.challenge)) &&
                (r == Done(true) <==> Verdict(x.response, x.twoFactor, x.challenge) && statusOf(x.response.text).Some?)
      ensures r == Done(true) ==>
                persistor.resource in disk.files &&
                (IsOk(statusOf(x.response.text).value) ==> session.isLoggedIn)
    {
      if session.isLoggedIn && !forceLogin {
        return Done(false);
      }
      var payload := LoginPayload(username, password, session.deviceId, session.uuid);
      var sent := Dispatch(Some(loginRoute), payload, true, apiUrl, x);
      if sent.ok {
        var saved := SaveSuccessfulLogin(x.response, statusOf);
        if saved.Throws? {
          return Throws(saved.exception);
        }
        return Done(true);
      }
      return Exits(1);
    }

    /** logout: on success the session file is removed; the session flags stay as they are. */
    method Logout(logoutRoute: string, x: Reaction) returns (r: Outcome<bool>)
      requires Valid()
      modifies request`url, request`data, request`isGet, request`headers, request`persistedCookies,
               session`totalRequests, session`lastResponse, session`statusCode, session`lastJSON, disk
      ensures Valid()
      ensures !old(session.isLoggedIn) ==> r == Throws("LoginException") && disk.files == old(disk.files)
      ensures old(session.isLoggedIn) ==> r == Done(Verdict(x.response, x.twoFactor, x.challenge))
      ensures r == Done(true) ==> persistor.resource !in disk.files
      ensures r == Done(true) ==>
                disk.files == (if AsksRelogin(x.response) then old(disk.files) - {session.username} else old(disk.files))
                              - {persistor.resource}
      ensures r == Done(false) ==>
                disk.files == (if AsksRelogin(x.response) then old(disk.files) - {session.username} else old(disk.files))
    {
      var sent := Dispatch(Some(logoutRoute), "{}", false, apiUrl, x);
      if sent.NotLoggedIn? {
        return Throws("LoginException");
      }
      if sent.ok {
        persistor.Destroy();
        return Done(true);
      }
      return Done(false);
    }

    /**
     * changePassword: posts the stored password and the new one, counted and
     * sent whether or not the session is logged in.
     */
    method ChangePassword(newPassword: string, changeRoute: string, x: Reaction) returns (r: Sent)
      requires Valid()
      modifies request`url, request`data, request`isGet, request`headers, request`persistedCookies,
               session`totalRequests, session`lastResponse, session`statusCode, session`lastJSON, disk
      ensures Valid()
      ensures request.url == apiUrl + changeRoute && request.data == ChangePasswordPayload(session.password, newPassword)
      ensures r == Returned(Verdict(x.response, x.twoFactor, x.challenge))
      ensures session.totalRequests == IntSucc(old(session.totalRequests))
      ensures session.lastJSON == NextLastJson(old(session.lastJSON), x.response)
    {
      r := Dispatch(Some(changeRoute), ChangePasswordPayload(session.password, newPassword), true, apiUrl, x);
    }

    /**
     * The first half of solveChallenge: the challenge page is fetched, then
     * getChallengeChoices builds the menu from its reply and, for an empty
     * menu, asks whether to change the password (`dialogue`), reading the new
     * one from `passwordLine`; the change request replies with `change`.
     */
    method ChallengeMenu(challengeUrl: Option<string>, page: Reaction, dialogue: Option<string>,
                         passwordLine: Option<string>, changeRoute: string, change: Reaction)
      returns (r: Outcome<seq<string>>)
      requires Valid()
      modifies request`url, request`data, request`isGet, request`headers, request`persistedCookies,
               session`totalRequests, session`lastResponse, session`statusCode, session`lastJSON, disk
      ensures Valid()
      ensures r.Done? || r.Throws?
      ensures ChallengeChoices(NextLastJson(old(session.lastJSON), page.response)).Threw? ==>
                r == Throws("JSONException") && session.totalRequests == IntSucc(old(session.totalRequests)) &&
                session.lastJSON == NextLastJson(old(session.lastJSON), page.response)
      ensures ChallengeChoices(NextLastJson(old(session.lastJSON), page.response)).Menu? &&
              AsksPassword(NextLastJson(old(session.lastJSON), page.response)) &&
              dialogue == Some("y") && passwordLine.None? ==>
                r == Throws("NullPointerException") && session.totalRequests == IntSucc(old(session.totalRequests)) &&
                session.lastJSON == NextLastJson(old(session.lastJSON), page.response)
      ensures r.Done? ==>
                ChallengeChoices(NextLastJson(old(session.lastJSON), page.response)) == Menu(r.value) &&
                session.totalRequests ==
                MenuRequests(old(session.totalRequests), NextLastJson(old(session.lastJSON), page.response), dialogue)
    {
      ghost var before := session.totalRequests;
      var _ := Dispatch(challengeUrl, "", true, apiUrl, page);
      var reply := session.lastJSON;
      var choices := ChallengeChoices(reply);
      if choices.Threw? {
        return Throws(choices.exception);
      }
      if AsksPassword(reply) && dialogue == Some("y") {
        if passwordLine.None? {
          return Throws("NullPointerException");
        }
        var _ := ChangePassword(passwordLine.value, changeRoute, change);
      }
      return Done(choices.lines);
    }

    /**
     * solveChallenge: fetches the challenge page, builds the menu, posts the
     * chosen method, then posts the code; true exactly when the method was
     * accepted and the last reply closes the challenge with status "ok".
     * `choiceLine` and `codeLine` are what the user types; `dialogue` and
     * `passwordLine` answer the password question of an empty menu, whose
     * request replies with `change`.
     */
    method SolveChallenge(page: Reaction, choose: Reaction, confirm: Reaction,
                          choiceLine: Option<string>, codeLine: Option<string>,
                          dialogue: Option<string>, passwordLine: Option<string>, changeRoute: string, change: Reaction)
      returns (r: Outcome<bool>)
      requires Valid()
      modifies request`url, request`data, request`isGet, request`headers, request`persistedCookies,
               session`totalRequests, session`lastResponse, session`statusCode, session`lastJSON, disk
      ensures Valid()
      ensures ChallengePath(old(session.lastJSON)) == Some("") ==>
                r == Throws("NegativeArraySizeException") && session.totalRequests == old(session.totalRequests)
      ensures ChallengePath(old(session.lastJSON)) != Some("") &&
              ChallengeChoices(NextLastJson(old(session.lastJSON), page.response)).Threw? ==>
                r == Throws("JSONException") && session.totalRequests == IntSucc(old(session.totalRequests)) &&
                session.lastJSON == NextLastJson(old(session.lastJSON), page.response)
      ensures r.Done? ==>
                (r.value <==> Verdict(choose.response, choose.twoFactor, choose.challenge) && Closed(session.lastJSON))
      ensures ChallengePath(old(session.lastJSON)) != Some("") &&
              AsksPassword(NextLastJson(old(session.lastJSON), page.response)) &&
              dialogue == Some("y") && passwordLine.None? ==>
                r == Throws("NullPointerException") && session.totalRequests == IntSucc(old(session.totalRequests)) &&
                session.lastJSON == NextLastJson(old(session.lastJSON), page.response)
      ensures r.Done? && !Verdict(choose.response, choose.twoFactor, choose.challenge) ==>
                session.totalRequests ==
                IntSucc(MenuRequests(old(session.totalRequests), NextLastJson(old(session.lastJSON), page.response), dialogue))
      ensures r.Done? && Verdict(choose.response, choose.twoFactor, choose.challenge) ==>
                session.totalRequests ==
                IntSucc(IntSucc(MenuRequests(old(session.totalRequests), NextLastJson(old(session.lastJSON), page.response), dialogue))) &&
                (confirm.response.statusCode != 404 ==> session.lastJSON == confirm.response.json)
    {
      var path := ChallengePath(session.lastJSON);
      if path == Some("") {
        return Throws("NegativeArraySizeException");
      }
      var challengeUrl := if path.Some? then Some(path.value[1..]) else None;
      ghost var before := session.totalRequests;
      ghost var menuReply := NextLastJson(session.lastJSON, page.response);
      var menu := ChallengeMenu(challengeUrl, page, dialogue, passwordLine, changeRoute, change);
      if menu.Throws? {
        return Throws(menu.exception);
      }
      var selected := ReadInt(choiceLine);
      if selected.Throws? {
        return Throws(selected.exception);
      }
      var chosen := Dispatch(challengeUrl, SingleField("choice", selected.value), true, apiUrl, choose);
      assert session.totalRequests == IntSucc(MenuRequests(before, menuReply, dialogue));
      assert chosen.ok == Verdict(choose.response, choose.twoFactor, choose.challenge);
      if !chosen.ok {
        return Done(false);
      }
      var code := ReadInt(codeLine);
      if code.Throws? {
        return Throws(code.exception);
      }
      var _ := Dispatch(challengeUrl, SingleField("security_code", code.value), true, apiUrl, confirm);
      assert session.totalRequests == IntSucc(IntSucc(MenuRequests(before, menuReply, dialogue)));
      return Done(Closed(session.lastJSON));
    }

    /**
     * watchReels: the seen report of the stories, newest first by the text of
     * `taken_at` and timed by the millisecond clock, posted to API version 2
     * with the session ids. `jitters[i]` is the random 0 or 1 of the i-th story.
     */
    method WatchReels(nowMillis: int, reels: seq<Story>, jitters: seq<int>, watchRoute: string, x: Reaction)
      returns (r: Outcome<bool>)
      requires Valid() && |reels| <= |jitters|
      modifies request`url, request`data, request`isGet, request`headers, request`persistedCookies,
               session`totalRequests, session`lastResponse, session`statusCode, session`lastJSON, disk
      ensures Valid()
      ensures WatchReport(nowMillis, reels, jitters).Failure? ==>
                r == Throws(WatchReport(nowMillis, reels, jitters).exception) && Wire() == old(Wire())
      ensures WatchReport(nowMillis, reels, jitters).Success? ==>
                request.url == API_V2_URL + watchRoute &&
                request.data == WatchPayload(session.token, session.userId, session.uuid,
                                             WatchReport(nowMillis, reels, jitters).value) &&
                (old(session.isLoggedIn) ==> r == Done(Verdict(x.response, x.twoFactor, x.challenge))) &&
                (!old(session.isLoggedIn) ==> r == Throws("LoginException"))
    {
      if !AllTaken(reels) {
        return Throws("JSONException");
      }
      var sorted := SortDescending(WithKeys(reels));
      var report := SeenReport(StoryClockAsWritten(nowMillis), sorted, jitters);
      if report.Failure? {
        return Throws(report.exception);
      }
      var payload := WatchPayload(session.token, session.userId, session.uuid, report.value);
      var sent := Dispatch(Some(watchRoute), payload, false, API_V2_URL, x);
      if sent.NotLoggedIn? {
        return Throws("LoginException");
      }
      return Done(sent.ok);
    }

    /**
     * archiveMedia: hides a post ("only_me") or shows it again
     * ("undo_only_me"); `route(mediaId, action, mediaType)` is the endpoint.
     */
    method ArchiveMedia(mediaId: string, mediaType: int, undo: bool, route: (string, string, int) -> string, x: Reaction)
      returns (r: Outcome<bool>)
      requires Valid()
      modifies request`url, request`data, request`isGet, request`headers, request`persistedCookies,
               session`totalRequests, session`lastResponse, session`statusCode, session`lastJSON, disk
      ensures Valid()
      ensures request.url == apiUrl + route(mediaId, ArchiveAction(undo), mediaType)
      ensures request.data == MediaPayload(session.token, session.userId, session.uuid, mediaId) && !request.isGet
      ensures old(session.isLoggedIn) ==> r == Done(Verdict(x.response, x.twoFactor, x.challenge))
      ensures !old(session.isLoggedIn) ==> r == Throws("LoginException")
    {
      var action := ArchiveAction(undo);
      var payload := MediaPayload(session.token, session.userId, session.uuid, mediaId);
      var sent := Dispatch(Some(route(mediaId, action, mediaType)), payload, false, apiUrl, x);
      if sent.NotLoggedIn? {
        return Throws("LoginException");
      }
      return Done(sent.ok);
    }

    /**
     * sendDirectItem: throws before anything when not logged in; otherwise
     * prepares the dispatcher with the form's text and posts the form itself,
     * unsigned, with the jar's cookies. Only the response and its status are
     * recorded: the request counter and the jar stay as they are. True exactly
     * on status 200. `itemRoute(itemType)` and `photoRoute` are the endpoints.
     */
    method SendDirectItem(itemType: string, users: seq<string>, options: Option<map<string, string>>,
                          clientContext: string, nowMillis: int, base64Of: string -> string,
                          itemRoute: string -> string, photoRoute: string, response: Response)
      returns (r: Outcome<bool>, post: Option<Call>)
      requires Valid()
      modifies request`url, request`data, request`isGet, request`headers,
               session`lastResponse, session`statusCode, session`lastJSON
      ensures Valid()
      ensures !old(session.isLoggedIn) ==>
                r == Throws("LoginException") && post == None && session.lastResponse == old(session.lastResponse)
      ensures var form := DirectPayload(itemType, users, options, session.token, session.userId, session.uuid,
                                        clientContext, nowMillis, base64Of);
              old(session.isLoggedIn) && form.Some? ==>
                var endpoint := if form.value.photo then photoRoute else itemRoute(itemType);
                r == Done(response.statusCode == 200) &&
                post == Some(Post(apiUrl + endpoint, request.headers, FormMap(form.value.fields), request.persistedCookies)) &&
                request.headers == old(request.headers) + form.value.header &&
                request.data == FormText(form.value.fields) &&
                session.lastResponse == Some(response) && session.statusCode == response.statusCode &&
                session.lastJSON == (if response.statusCode == 200 then response.json else old(session.lastJSON))
      ensures old(session.isLoggedIn) &&
              DirectPayload(itemType, users, options, session.token, session.userId, session.uuid,
                            clientContext, nowMillis, base64Of).None? ==>
                r == Throws("NumberFormatException") && post == None && session.lastResponse == old(session.lastResponse)
    {
      if !session.isLoggedIn {
        return Throws("LoginException"), None;
      }
      var form := DirectPayload(itemType, users, options, session.token, session.userId, session.uuid,
                                clientContext, nowMillis, base64Of);
      if form.None? {
        return Throws("NumberFormatException"), None;
      }
      var endpoint := if form.value.photo then photoRoute else itemRoute(itemType);
      var ok, call := PostForm(endpoint, form.value, response);
      r, post := Done(ok), Some(call);
    }

    /**
     * sendDirectItem's round trip once the form is built: the dispatcher is
     * prepared with the form's text and header, the form itself is posted
     * unsigned with the jar's cookies, and the response is recorded.
     */
    method PostForm(endpoint: string, form: DirectForm, response: Response) returns (ok: bool, post: Call)
      requires Valid()
      modifies request`url, request`data, request`isGet, request`headers,
               session`lastResponse, session`statusCode, session`lastJSON
      ensures Valid()
      ensures ok == (response.statusCode == 200)
      ensures post == Post(apiUrl + endpoint, request.headers, FormMap(form.fields), request.persistedCookies)
      ensures request.headers == old(request.headers) + form.header && request.data == FormText(form.fields)
      ensures session.lastResponse == Some(response) && session.statusCode == response.statusCode
      ensures session.lastJSON == (if ok then response.json else old(session.lastJSON))
    {
      request.Prepare(Some(endpoint), FormText(form.fields), Some(form.header), None, apiUrl);
      post := Post(apiUrl + endpoint, request.headers, FormMap(form.fields), request.persistedCookies);
      session.lastResponse := Some(response);
      session.statusCode := response.statusCode;
      ok := response.statusCode == 200;
      if ok {
        session.lastJSON := response.json;
      }
    }
  }

  /** The session saved under `name`, as `load` reads it, or the exception `load` throws. */
  function Saved(files: map<string, string>, name: string): Result<CookieDisk> {
    if name in files then Restore(files[name]) else Failure("FileNotFoundException")
  }

  /** The status in the saved account blob; None where there is none or reading it throws. */
  function SavedStatus(files: map<string, string>, name: string, statusOf: string -> Option<string>): Option<string> {
    var saved := Saved(files, name);
    if saved.Success? then statusOf(saved.value.account) else None
  }

  /** prepare restores a login: the device id can be made and the saved status is "ok" in any case. */
  predicate LogsIn(md5Digest: Option<nat>, files: map<string, string>, name: string, statusOf: string -> Option<string>) {
    var status := SavedStatus(files, name, statusOf);
    GenerateDeviceId(md5Digest).Some? && status.Some? && IsOk(status.value)
  }

  /** The login form: a placeholder CSRF token, the device, and the credentials. */
  function LoginPayload(username: string, password: string, deviceId: string, uuid: string): string {
    Render(JObject([("_csrftoken", JStr("missing")), ("device_id", JStr(deviceId)), ("_uuid", JStr(uuid)),
                    ("username", JStr(username)), ("password", JStr(password)),
                    ("login_attempt_count", JStr("0"))]))
  }

  /** The watchReels form: the session ids and the seen report. */
  function WatchPayload(token: string, userId: string, uuid: string, report: seq<(string, seq<string>)>): string {
    Render(JObject([("_csrftoken", JStr(token)), ("_uid", JStr(userId)), ("_uuid", JStr(uuid)),
                    ("reels", ReelsJson(report))]))
  }

  /** The changePassword form: the stored password, then the new one twice. */
  function ChangePasswordPayload(oldPassword: string, newPassword: string): string {
    Render(JObject([("old_password", JStr(oldPassword)), ("new_password1", JStr(newPassword)),
                    ("new_password2", JStr(newPassword))]))
  }

  /**
   * The request count of solveChallenge once its menu is built: the step
   * page, and the password change when "y" answers the empty menu's dialogue.
   */
  function MenuRequests(total: int, reply: Option<Reply>, dialogue: Option<string>): int
    requires INT_MIN <= total <= INT_MAX
  {
    if AsksPassword(reply) && dialogue == Some("y") then IntSucc(IntSucc(total)) else IntSucc(total)
  }

  /** The archiveMedia form: the session ids and the media id. */
  function MediaPayload(token: string, userId: string, uuid: string, mediaId: string): string {
    Render(JObject([("_csrftoken", JStr(token)), ("_uid", JStr(userId)), ("_uuid", JStr(uuid)),
                    ("media_id", JStr(mediaId))]))
  }
}
