/**
 * The request dispatcher (api/Request.kt): one reusable Request that is
 * prepared with an endpoint and a payload, then sent. The HTTP transport is
 * foreign: `Send` hands out the call it would make and takes the server's
 * response as an input.
 */
module Request {
  import opened Wrappers
  import opened Strings
  import opened Json
  import opened Crypto
  import opened FileSystem
  import opened Session

  /** The HTTP call made by `send`. */
  datatype Call =
    | Get(url: string, headers: map<string, string>, cookies: Option<map<string, string>>)
    | Post(url: string, headers: map<string, string>, form: map<string, string>, cookies: Option<map<string, string>>)

  /** The end of `send`: the LoginException it throws, or the boolean it returns. */
  datatype Sent = NotLoggedIn | Returned(ok: bool)

  /** The `signed_body` field: the signature and the payload joined by a dot. */
  function SignedBody(sig: Signature): string {
    sig.signed + "." + sig.payload
  }

  /** The form of a POST: the signed body, the key version, and any extra signature fields. */
  function Form(sig: Signature, extraSignature: Option<map<string, string>>): (r: map<string, string>)
    ensures "signed_body" in r && "ig_sig_key_version" in r
    ensures extraSignature.None? ==> r.Keys == {"signed_body", "ig_sig_key_version"}
    ensures extraSignature.None? ==> r["signed_body"] == SignedBody(sig) && r["ig_sig_key_version"] == sig.sigKeyVersion
  {
    var base := map["signed_body" := SignedBody(sig), "ig_sig_key_version" := sig.sigKeyVersion];
    match extraSignature
    case None => base
    case Some(extra) => base + extra
  }

  /**
   * The server can take the signed body apart again: everything before the
   * first dot is the signature (hexadecimal, so dot-free), everything after it
   * is the payload, whatever the payload holds.
   */
  lemma SignedBodySplits(keys: Keys, hmac: (string, string) -> Option<nat>, payload: string)
    ensures var sig := SignData(keys, hmac, payload);
            var body := SignedBody(sig);
            var k := IndexOf(body, '.');
            k < |body| && body[..k] == sig.signed && body[k + 1..] == payload
  {
    var sig := SignData(keys, hmac, payload);
    var body := SignedBody(sig);
    assert forall i | 0 <= i < |sig.signed| :: body[i] == sig.signed[i] && IsHexChar(sig.signed[i]);
    assert body[|sig.signed|] == '.';
    assert IndexOf(body, '.') == |sig.signed|;
    assert body[..|sig.signed|] == sig.signed;
    assert body[|sig.signed| + 1..] == payload;
  }

  /**
   * The cookie jar after a response: the response's cookies when there was no
   * jar yet, otherwise the jar with the response's cookies put over it.
   */
  function MergeCookies(persisted: Option<map<string, string>>, incoming: map<string, string>): (r: map<string, string>)
    ensures persisted.None? ==> r == incoming
    ensures persisted.Some? ==> r.Keys == persisted.value.Keys + incoming.Keys
    ensures forall k | k in incoming :: r[k] == incoming[k]
    ensures persisted.Some? ==> forall k | k in persisted.value && k !in incoming :: r[k] == persisted.value[k]
  {
    match persisted
    case None => incoming
    case Some(jar) => jar + incoming
  }

  /** Whether a reply is a 403 asking to log in again, which clears the session file. */
  predicate AsksRelogin(response: Response) {
    response.statusCode == 403 && response.json.Some? && response.json.value.message == Some("login_required")
  }

  /**
   * What `send` returns once a response is in. `twoFactorResult` and
   * `challengeResult` are what the interactive two-factor and challenge flows
   * would return.
   */
  function Verdict(response: Response, twoFactorResult: bool, challengeResult: bool): (ok: bool)
    ensures response.statusCode == 200 ==> ok
    ensures ok ==> response.statusCode == 200 || response.statusCode == 400
    ensures response.statusCode == 400 && response.json.Some? && response.json.value.twoFactorRequired == Some(true) ==>
              ok == twoFactorResult
    ensures response.statusCode == 400 && response.json.Some? && response.json.value.twoFactorRequired != Some(true) &&
              response.json.value.message == Some("challenge_required") ==>
              ok == challengeResult
    ensures response.statusCode == 400 && response.json.None? ==> !ok
  {
    if response.statusCode == 200 then true
    else if response.statusCode == 400 then
      match response.json
      case None => false
      case Some(reply) =>
        if reply.twoFactorRequired == Some(true) then twoFactorResult
        else if reply.message == Some("challenge_required") then challengeResult
        else false
    else false
  }

  /** The last parsed reply after a response: a 404 keeps the previous one. */
  function NextLastJson(previous: Option<Reply>, response: Response): (r: Option<Reply>)
    ensures response.statusCode == 404 ==> r == previous
    ensures response.statusCode != 404 ==> r == response.json
  {
    if response.statusCode == 404 then previous else response.json
  }

  class Request {
    var url: string
    var data: string
    var isGet: bool
    var persistedCookies: Option<map<string, string>>
    var headers: map<string, string>
    var extraSignature: Option<map<string, string>>

    /** `extraSignature` starts out null and nothing ever assigns it. */
    predicate Valid()
      reads this
    {
      extraSignature == None
    }

    /** A fresh dispatcher over the default headers. */
    constructor(defaultHeaders: map<string, string>)
      ensures Valid()
      ensures url == "" && data == "" && isGet
      ensures persistedCookies == None && headers == defaultHeaders
    {
      url := "";
      data := "";
      isGet := true;
      persistedCookies := None;
      headers := defaultHeaders;
      extraSignature := None;
    }

    /**
     * prepare: the URL is the base URL followed by the endpoint ("null" for a
     * null endpoint); the request is a GET exactly when the payload is empty;
     * the given headers are put over the current ones. The extra signature
     * fields are dropped, since they are put into a map that is null.
     */
    method Prepare(endpoint: Option<string>, payload: string, header: Option<map<string, string>>,
                   extraSig: Option<map<string, string>>, apiUrl: string)
      requires Valid()
      modifies this`url, this`data, this`isGet, this`headers
      ensures Valid()
      ensures url == apiUrl + ShowOrNull(endpoint)
      ensures data == payload && (isGet <==> payload == "")
      ensures headers == old(headers) + header.GetOr(map[])
    {
      url := apiUrl + ShowOrNull(endpoint);
      data := payload;
      isGet := |data| == 0;
      // extraSig would be put into extraSignature, which is null: it is dropped.
      if header.Some? {
        headers := headers + header.value;
      }
    }

    /**
     * send: refuses to go out before login unless it is a login request; else
     * makes the call (a POST carries the signed payload), merges the response
     * cookies into the jar, counts the request, records the response, and
     * classifies its status. On a 403 asking to log in again it deletes the
     * session file, which is named after the user.
     */
    method Send(isLogin: bool, session: Session, disk: Disk, keys: Keys, hmac: (string, string) -> Option<nat>,
                response: Response, twoFactorResult: bool, challengeResult: bool)
      returns (r: Sent, call: Option<Call>)
      requires Valid() && session.Valid()
      modifies this`persistedCookies, session`totalRequests, session`lastResponse, session`statusCode,
               session`lastJSON, disk
      ensures Valid() && session.Valid()
      ensures !old(session.isLoggedIn) && !isLogin ==>
                r == NotLoggedIn && call == None &&
                persistedCookies == old(persistedCookies) && disk.files == old(disk.files) &&
                session.totalRequests == old(session.totalRequests) &&
                session.lastResponse == old(session.lastResponse) &&
                session.statusCode == old(session.statusCode) && session.lastJSON == old(session.lastJSON)
      ensures old(session.isLoggedIn) || isLogin ==>
                call == Some(if isGet then Get(url, headers, old(persistedCookies))
                             else Post(url, headers, Form(SignData(keys, hmac, data), None), old(persistedCookies)))
      ensures old(session.isLoggedIn) || isLogin ==>
                persistedCookies == Some(MergeCookies(old(persistedCookies), response.cookies))
      ensures old(session.isLoggedIn) || isLogin ==>
                session.totalRequests == IntSucc(old(session.totalRequests)) &&
                session.lastResponse == Some(response) && session.statusCode == response.statusCode
      ensures old(session.isLoggedIn) || isLogin ==>
                session.lastJSON == NextLastJson(old(session.lastJSON), response)
      ensures old(session.isLoggedIn) || isLogin ==>
                r == Returned(Verdict(response, twoFactorResult, challengeResult))
      ensures old(session.isLoggedIn) || isLogin ==>
                disk.files == (if AsksRelogin(response) then old(disk.files) - {session.username} else old(disk.files))
    {
      if !session.isLoggedIn && !isLogin {
        return NotLoggedIn, None;
      }
      if isGet {
        call := Some(Get(url, headers, persistedCookies));
      } else {
        var signature := SignData(keys, hmac, data);
        var payload := Form(signature, extraSignature);
        call := Some(Post(url, headers, payload, persistedCookies));
      }

      if persistedCookies.None? {
        persistedCookies := Some(response.cookies);
      } else {
        persistedCookies := Some(persistedCookies.value + response.cookies);
      }

      session.totalRequests := IntSucc(session.totalRequests);
      session.lastResponse := Some(response);
      session.statusCode := response.statusCode;

      var ok := Classify(session, disk, response, twoFactorResult, challengeResult);
      r := Returned(ok);
    }

    /**
     * send once the response is in: records its reply (a 404 keeps the
     * previous one) and classifies its status. A 403 asking to log in again
     * deletes the session file, which is named after the user.
     */
    static method Classify(session: Session, disk: Disk, response: Response, twoFactorResult: bool, challengeResult: bool)
      returns (ok: bool)
      modifies session`lastJSON, disk
      ensures ok == Verdict(response, twoFactorResult, challengeResult)
      ensures session.lastJSON == NextLastJson(old(session.lastJSON), response)
      ensures disk.files == (if AsksRelogin(response) then old(disk.files) - {session.username} else old(disk.files))
    {
      if response.statusCode == 200 {
        session.lastJSON := response.json;
        ok := true;
      } else {
        if response.statusCode != 404 {
          session.lastJSON := response.json;
        }
        var reply := session.lastJSON;
        if response.statusCode == 400 {
          if reply.Some? && reply.value.twoFactorRequired == Some(true) {
            ok := twoFactorResult;
          } else if reply.Some? && reply.value.message == Some("challenge_required") {
            ok := challengeResult;
          } else {
            ok := false;
          }
        } else if response.statusCode == 403 {
          if reply.Some? && reply.value.message == Some("login_required") && session.username in disk.files {
            disk.files := disk.files - {session.username};
          }
          ok := false;
        } else {
          // 429 sleeps five minutes; 405, 404 and any other status end here too.
          ok := false;
        }
      }
    }
  }
}
