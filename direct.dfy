/**
 * The form of a direct message, as sendDirectItem builds it
 * (api/InstagramAPI.kt:1397-1457): an insertion-ordered Kotlin map whose
 * fields depend on the item type and the options given.
 */
module Direct {
  import opened Wrappers
  import opened Strings
  import opened Json

  /** A form value: text, a number, or the photo upload list. */
  datatype FormValue = FText(s: string) | FInt(n: int) | FPhoto(uploadId: string, base64: string)

  /** The form, the header to add, and whether the photo endpoint replaces the item endpoint. */
  datatype DirectForm = DirectForm(fields: seq<(string, FormValue)>, header: map<string, string>, photo: bool)

  /** `options?.get(key)?.isNotEmpty() == true` */
  predicate Given(options: Option<map<string, string>>, key: string) {
    options.Some? && key in options.value && options.value[key] != ""
  }

  /** The `recipient_users` value: the user ids joined by commas inside double brackets. */
  function Recipients(users: seq<string>): string {
    "[[" + Join(users, ",") + "]]"
  }

  /** The fields every message carries, in the order they are put. */
  function Base(users: seq<string>, token: string, userId: string, uuid: string, clientContext: string)
    : seq<(string, FormValue)>
  {
    [("_csrftoken", FText(token)), ("_uid", FText(userId)), ("_uuid", FText(uuid)),
     ("client_context", FText(clientContext)), ("action", FText("send_item")),
     ("recipient_users", FText(Recipients(users)))]
  }

  /** `thread_ids` is put only when a non-empty thread id is given. */
  function WithThread(fields: seq<(string, FormValue)>, options: Option<map<string, string>>): seq<(string, FormValue)> {
    if Given(options, "threadId") then Put(fields, "thread_ids", FText(options.value["threadId"])) else fields
  }

  /** The text option, or "" when it is missing or empty. */
  function TextOption(options: Option<map<string, string>>): string {
    if Given(options, "text") then options.value["text"] else ""
  }

  /** The keys an item type may add. */
  const ITEM_KEYS: set<string> :=
    {"text", "link_text", "link_urls", "media_type", "media_id", "hashtag", "profile_user_id", "photo"}

  /**
   * The item-specific fields; None where `options["media_type"]?.toInt()`
   * throws NumberFormatException. An item type whose options are missing adds
   * nothing.
   */
  function Item(itemType: string, fields: seq<(string, FormValue)>, options: Option<map<string, string>>,
                text: string, uploadId: string, base64Of: string -> string): Option<DirectForm>
  {
    if itemType == "text" then
      Some(DirectForm(Put(fields, "text", FText(text)), map[], false))
    else if itemType == "link" && Given(options, "urls") then
      Some(DirectForm(Put(Put(fields, "link_text", FText(text)), "link_urls", FText(options.value["urls"])), map[], false))
    else if itemType == "media_share" && Given(options, "media_type") && Given(options, "media_id") then
      match ParseInt(options.value["media_type"])
      case None => None
      case Some(mediaType) =>
        Some(DirectForm(Put(Put(Put(fields, "text", FText(text)), "media_type", FInt(mediaType)),
                            "media_id", FText(options.value["media_id"])), map[], false))
    else if itemType == "hashtag" && Given(options, "hashtag") then
      Some(DirectForm(Put(Put(fields, "text", FText(text)), "hashtag", FText(options.value["hashtag"])), map[], false))
    else if itemType == "profile" && Given(options, "profile_user_id") then
      Some(DirectForm(Put(Put(fields, "text", FText(text)), "profile_user_id", FText(options.value["profile_user_id"])),
                      map[], false))
    else if itemType == "photo" && Given(options, "filePath") then
      Some(DirectForm(Put(fields, "photo", FPhoto(uploadId, base64Of(options.value["filePath"]))),
                      map["Content-type" := "multipart/form-data"], true))
    else
      Some(DirectForm(fields, map[], false))
  }

  /**
   * The form of sendDirectItem. `clientContext` is a fresh dashed UUID,
   * `nowMillis` the clock, and `base64Of(path)` the Base64 text of the file's
   * bytes.
   */
  function DirectPayload(itemType: string, users: seq<string>, options: Option<map<string, string>>,
                         token: string, userId: string, uuid: string, clientContext: string,
                         nowMillis: int, base64Of: string -> string): Option<DirectForm>
  {
    Item(itemType, WithThread(Base(users, token, userId, uuid, clientContext), options), options,
         TextOption(options), Decimal(nowMillis * 1000), base64Of)
  }

  /** Kotlin's `toString()` of a form value (the photo bytes stand as the file path). */
  function ShowValue(v: FormValue): string {
    match v
    case FText(s) => s
    case FInt(n) => Decimal(n)
    case FPhoto(id, data) =>
      "[direct_temp_photo_" + id + ".jpg, " + data + ", application/octet-stream, {Content-Transfer-Encoding=binary}]"
  }

  /** Kotlin's `toString()` of the form: "{k1=v1, k2=v2}". */
  function FormText(fields: seq<(string, FormValue)>): (r: string)
    ensures r != [] && r[0] == '{'
  {
    "{" + Join(seq(|fields|, i requires 0 <= i < |fields| => fields[i].0 + "=" + ShowValue(fields[i].1)), ", ") + "}"
  }

  /** An item adds only its own keys: every other key reads as before. */
  lemma ItemKeeps(itemType: string, fields: seq<(string, FormValue)>, options: Option<map<string, string>>,
                  text: string, uploadId: string, base64Of: string -> string, k: string)
    requires k !in ITEM_KEYS
    ensures var r := Item(itemType, fields, options, text, uploadId, base64Of);
            r.Some? ==> Lookup(r.value.fields, k) == Lookup(fields, k)
  {
    if itemType == "text" {
      LookupPut(fields, "text", FText(text), k);
    } else if itemType == "link" && Given(options, "urls") {
      LookupPut(fields, "link_text", FText(text), k);
      LookupPut(Put(fields, "link_text", FText(text)), "link_urls", FText(options.value["urls"]), k);
    } else if itemType == "media_share" && Given(options, "media_type") && Given(options, "media_id") {
      var m := ParseInt(options.value["media_type"]);
      if m.Some? {
        var f1 := Put(fields, "text", FText(text));
        var f2 := Put(f1, "media_type", FInt(m.value));
        LookupPut(fields, "text", FText(text), k);
        LookupPut(f1, "media_type", FInt(m.value), k);
        LookupPut(f2, "media_id", FText(options.value["media_id"]), k);
      }
    } else if itemType == "hashtag" && Given(options, "hashtag") {
      LookupPut(fields, "text", FText(text), k);
      LookupPut(Put(fields, "text", FText(text)), "hashtag", FText(options.value["hashtag"]), k);
    } else if itemType == "profile" && Given(options, "profile_user_id") {
      LookupPut(fields, "text", FText(text), k);
      LookupPut(Put(fields, "text", FText(text)), "profile_user_id", FText(options.value["profile_user_id"]), k);
    } else if itemType == "photo" && Given(options, "filePath") {
      LookupPut(fields, "photo", FPhoto(uploadId, base64Of(options.value["filePath"])), k);
    }
  }

  /** The keys every message carries are not item keys. */
  lemma CommonKeysNotItemKeys()
    ensures "recipient_users" !in ITEM_KEYS && "action" !in ITEM_KEYS
    ensures "_csrftoken" !in ITEM_KEYS && "thread_ids" !in ITEM_KEYS
  {
  }

  /** The base fields read back as put, and no thread id is among them. */
  lemma BaseFields(users: seq<string>, token: string, userId: string, uuid: string, clientContext: string)
    ensures var b := Base(users, token, userId, uuid, clientContext);
            Lookup(b, "recipient_users") == Some(FText(Recipients(users))) &&
            Lookup(b, "action") == Some(FText("send_item")) &&
            Lookup(b, "_csrftoken") == Some(FText(token)) &&
            Lookup(b, "thread_ids") == None
  {
    var b := Base(users, token, userId, uuid, clientContext);
    assert DistinctKeys(b);
    LookupDistinct(b, 0);
    LookupDistinct(b, 4);
    LookupDistinct(b, 5);
    assert forall i | 0 <= i < |b| :: b[i].0 != "thread_ids";
  }

  /**
   * Every message is addressed to the given users as `[[id,id,...]]`, carries
   * the action "send_item" and the CSRF token, and has a `thread_ids` field
   * exactly when a non-empty thread id is given.
   */
  lemma CommonFields(itemType: string, users: seq<string>, options: Option<map<string, string>>,
                     token: string, userId: string, uuid: string, clientContext: string,
                     nowMillis: int, base64Of: string -> string)
    ensures var r := DirectPayload(itemType, users, options, token, userId, uuid, clientContext, nowMillis, base64Of);
            r.Some? ==>
              Lookup(r.value.fields, "recipient_users") == Some(FText(Recipients(users))) &&
              Lookup(r.value.fields, "action") == Some(FText("send_item")) &&
              Lookup(r.value.fields, "_csrftoken") == Some(FText(token)) &&
              (Lookup(r.value.fields, "thread_ids").Some? <==> Given(options, "threadId"))
  {
    var b := Base(users, token, userId, uuid, clientContext);
    var f := WithThread(b, options);
    assert Lookup(f, "recipient_users") == Some(FText(Recipients(users))) &&
           Lookup(f, "action") == Some(FText("send_item")) &&
           Lookup(f, "_csrftoken") == Some(FText(token)) &&
           (Lookup(f, "thread_ids").Some? <==> Given(options, "threadId")) by {
      BaseFields(users, token, userId, uuid, clientContext);
      if Given(options, "threadId") {
        var t := FText(options.value["threadId"]);
        LookupPut(b, "thread_ids", t, "thread_ids");
        LookupPut(b, "thread_ids", t, "recipient_users");
        LookupPut(b, "thread_ids", t, "action");
        LookupPut(b, "thread_ids", t, "_csrftoken");
      }
    }
    var text, uploadId := TextOption(options), Decimal(nowMillis * 1000);
    var r := Item(itemType, f, options, text, uploadId, base64Of);
    CommonKeysNotItemKeys();
    assert r == DirectPayload(itemType, users, options, token, userId, uuid, clientContext, nowMillis, base64Of);
    if r.Some? {
      assert Lookup(r.value.fields, "recipient_users") == Lookup(f, "recipient_users") by {
        ItemKeeps(itemType, f, options, text, uploadId, base64Of, "recipient_users");
      }
      assert Lookup(r.value.fields, "action") == Lookup(f, "action") by {
        ItemKeeps(itemType, f, options, text, uploadId, base64Of, "action");
      }
      assert Lookup(r.value.fields, "_csrftoken") == Lookup(f, "_csrftoken") by {
        ItemKeeps(itemType, f, options, text, uploadId, base64Of, "_csrftoken");
      }
      assert Lookup(r.value.fields, "thread_ids") == Lookup(f, "thread_ids") by {
        ItemKeeps(itemType, f, options, text, uploadId, base64Of, "thread_ids");
      }
    }
  }

  /** A text message carries the text option, or "" when it is missing or empty. */
  lemma TextMessage(users: seq<string>, options: Option<map<string, string>>,
                    token: string, userId: string, uuid: string, clientContext: string,
                     nowMillis: int, base64Of: string -> string)
    ensures var r := DirectPayload("text", users, options, token, userId, uuid, clientContext, nowMillis, base64Of);
            r.Some? && !r.value.photo && r.value.header == map[] &&
            Lookup(r.value.fields, "text") == Some(FText(if Given(options, "text") then options.value["text"] else ""))
  {
    var f := WithThread(Base(users, token, userId, uuid, clientContext), options);
    LookupPut(f, "text", FText(TextOption(options)), "text");
  }

  /** A photo with a file path goes to the photo endpoint as multipart form data. */
  lemma PhotoMessage(users: seq<string>, options: map<string, string>,
                     token: string, userId: string, uuid: string, clientContext: string,
                     nowMillis: int, base64Of: string -> string)
    requires Given(Some(options), "filePath")
    ensures var r := DirectPayload("photo", users, Some(options), token, userId, uuid, clientContext, nowMillis, base64Of);
            r.Some? && r.value.photo && r.value.header == map["Content-type" := "multipart/form-data"] &&
            Lookup(r.value.fields, "photo") == Some(FPhoto(Decimal(nowMillis * 1000), base64Of(options["filePath"])))
  {
    var f := WithThread(Base(users, token, userId, uuid, clientContext), Some(options));
    LookupPut(f, "photo", FPhoto(Decimal(nowMillis * 1000), base64Of(options["filePath"])), "photo");
  }

  /**
   * sendDirectItem throws exactly for a media share whose media type is given
   * but is not a 32-bit number.
   */
  lemma PayloadThrows(itemType: string, users: seq<string>, options: Option<map<string, string>>,
                      token: string, userId: string, uuid: string, clientContext: string,
                      nowMillis: int, base64Of: string -> string)
    ensures DirectPayload(itemType, users, options, token, userId, uuid, clientContext, nowMillis, base64Of).None? <==>
            itemType == "media_share" && Given(options, "media_type") && Given(options, "media_id") &&
            ParseInt(options.value["media_type"]).None?
  {
  }
}
