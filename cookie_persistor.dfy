/**
 * The session file (util/CookiePersistor.kt): a two-line record
 * "account->ACCOUNT\ncookies->C1#C2#...", where each Ci is the text
 * "name=value" of one cookie-jar entry.
 */
module CookiePersistor {
  import opened Wrappers
  import opened Strings
  import opened FileSystem

  /** CookieDisk: the account blob and the cookie jar (cookie name to value). */
  datatype CookieDisk = CookieDisk(account: string, cookieJar: map<string, string>)

  // ---------------------------------------------------------------------------
  // The record format
  // ---------------------------------------------------------------------------

  /** The text `"$entry"` of a jar entry. */
  function EntryText(name: string, value: string): string {
    name + "=" + value
  }

  /** The entry texts of `jar` listed in the order `names`. */
  function EntryTexts(names: seq<string>, jar: map<string, string>): (r: seq<string>)
    requires forall k | 0 <= k < |names| :: names[k] in jar
    ensures |r| == |names|
    ensures forall k | 0 <= k < |names| :: r[k] == EntryText(names[k], jar[names[k]])
  {
    seq(|names|, k requires 0 <= k < |names| => EntryText(names[k], jar[names[k]]))
  }

  /** `names` lists every key of the jar exactly once: one iteration order of the jar. */
  predicate Enumerates(names: seq<string>, keys: set<string>) {
    (forall i, j | 0 <= i < j < |names| :: names[i] != names[j]) &&
    (forall k | 0 <= k < |names| :: names[k] in keys) &&
    (forall n | n in keys :: n in names)
  }

  /** What `save` writes. */
  function Record(account: string, texts: seq<string>): string {
    "account->" + account + "\ncookies->" + Join(texts, "#")
  }

  /**
   * What `load` reads: the account between the first and second "->" of
   * the first line, and the part of the second line between its first and
   * second "->" split on "#". None where the source indexes past the end
   * of a split.
   */
  function ParseRecord(text: string): Option<(string, seq<string>)> {
    var lines := Split(text, "\n");
    if |lines| < 2 then None
    else
      var accountLine := Split(lines[0], "->");
      var cookieLine := Split(lines[1], "->");
      if |accountLine| < 2 || |cookieLine| < 2 then None
      else Some((accountLine[1], Split(cookieLine[1], "#")))
  }

  /**
   * khttp's `Cookie(text)` as `setCookie` stores it: the text is split at its
   * first '=', and without one the constructor throws IllegalArgumentException
   * (None). The name is the trimmed part before it, the value the trimmed part
   * after it up to the first ';' (what follows are cookie attributes).
   */
  function CookieOf(text: string): (r: Option<(string, string)>)
    ensures r.None? <==> '=' !in text
  {
    var k := IndexOf(text, '=');
    if k == |text| then None
    else
      var rest := text[k + 1..];
      Some((Trim(text[..k]), Trim(rest[..IndexOf(rest, ';')])))
  }

  /**
   * The jar after `setCookie` of every text in order, a later cookie
   * overriding an earlier one; None once a text is not a cookie.
   */
  function JarOf(texts: seq<string>): Option<map<string, string>> {
    if texts == [] then Some(map[])
    else
      match JarOf(texts[..|texts| - 1])
      case None => None
      case Some(jar) =>
        match CookieOf(texts[|texts| - 1])
        case None => None
        case Some(c) => Some(jar[c.0 := c.1])
  }

  /**
   * `load` on the contents of the file: IndexOutOfBoundsException where a
   * split is too short, IllegalArgumentException where an entry has no '='.
   */
  function Restore(text: string): Result<CookieDisk> {
    match ParseRecord(text)
    case None => Failure("IndexOutOfBoundsException")
    case Some(p) =>
      match JarOf(p.1)
      case None => Failure("IllegalArgumentException")
      case Some(jar) => Success(CookieDisk(p.0, jar))
  }

  /** A jar entry that reads back as itself: a name without '=', a value without ';', neither padded. */
  predicate Storable(name: string, value: string) {
    '=' !in name && ';' !in value && Trimmed(name) && Trimmed(value)
  }

  /** A field fit for the record: no line break, no "#" and no "->". */
  predicate Plain(s: string) {
    '\n' !in s && '#' !in s && Free(s, "->")
  }

  /**
   * Reading back a saved record gives the account and the entry texts, except
   * that an empty jar comes back as one empty text.
   */
  lemma RecordRoundTrip(account: string, texts: seq<string>)
    requires '\n' !in account && Free(account, "->")
    requires forall k | 0 <= k < |texts| :: Plain(texts[k])
    ensures ParseRecord(Record(account, texts)) == Some((account, if texts == [] then [""] else texts))
  {
    var joined := Join(texts, "#");
    var first := "account->" + account;
    var second := "cookies->" + joined;
    assert Record(account, texts) == first + "\n" + second;
    NotInJoin(texts, "#", '\n');
    assert '\n' !in first && '\n' !in second;
    CleanWithoutFirst(first, "\n");
    SplitCut(first, "\n", second);
    CleanWithoutFirst(second, "\n");
    CleanIsFree(second, "\n");
    SplitWhole(second, "\n");
    assert Split(Record(account, texts), "\n") == [first, second];

    CleanWithoutFirst("account", "->");
    SplitCut("account", "->", account);
    SplitWhole(account, "->");
    assert first == "account" + "->" + account;
    assert Split(first, "->") == ["account", account];

    FreeJoinTwo(texts, '#', "->");
    CleanWithoutFirst("cookies", "->");
    SplitCut("cookies", "->", joined);
    SplitWhole(joined, "->");
    assert second == "cookies" + "->" + joined;
    assert Split(second, "->") == ["cookies", joined];

    if texts == [] {
      SplitJoinEmpty("#");
    } else {
      forall k | 0 <= k < |texts| ensures EndsClean(texts[k], "#") {
        CleanWithoutFirst(texts[k], "#");
      }
      SplitJoin(texts, "#");
    }
  }

  /** The entry text of a storable name and value is read back as that name and value. */
  lemma CookieOfEntry(name: string, value: string)
    requires Storable(name, value)
    ensures CookieOf(EntryText(name, value)) == Some((name, value))
  {
    var t := EntryText(name, value);
    assert forall k | 0 <= k < |name| :: t[k] == name[k];
    assert t[|name|] == '=';
    assert IndexOf(t, '=') == |name|;
    assert t[..|name|] == name && t[|name| + 1..] == value;
    assert IndexOf(value, ';') == |value| && value[..|value|] == value;
  }

  /** `load` throws exactly when one of the entry texts has no '='. */
  lemma {:induction false} JarOfFails(texts: seq<string>)
    ensures JarOf(texts).None? <==> exists k | 0 <= k < |texts| :: '=' !in texts[k]
    decreases |texts|
  {
    if texts != [] {
      var init := texts[..|texts| - 1];
      JarOfFails(init);
      assert forall k | 0 <= k < |init| :: init[k] == texts[k];
      if JarOf(texts).None? && JarOf(init).Some? {
        assert '=' !in texts[|texts| - 1];
      }
    }
  }

  /** `jar` restricted to the keys listed in `names`. */
  function Restrict(names: seq<string>, jar: map<string, string>): map<string, string>
    requires forall k | 0 <= k < |names| :: names[k] in jar
  {
    map n | n in names :: jar[n]
  }

  /** Setting the cookies of the entry texts rebuilds the jar restricted to the listed names. */
  lemma {:induction false} JarOfEntries(names: seq<string>, jar: map<string, string>)
    requires forall k | 0 <= k < |names| :: names[k] in jar && Storable(names[k], jar[names[k]])
    ensures JarOf(EntryTexts(names, jar)) == Some(Restrict(names, jar))
  {
    if names != [] {
      var last := |names| - 1;
      var init := names[..last];
      var n := names[last];
      var texts := EntryTexts(names, jar);
      assert JarOf(texts[..last]) == Some(Restrict(init, jar)) by {
        assert texts[..last] == EntryTexts(init, jar);
        JarOfEntries(init, jar);
      }
      assert JarOf(texts) == Some(Restrict(init, jar)[n := jar[n]]) by {
        assert texts[last] == EntryText(n, jar[n]);
        CookieOfEntry(n, jar[n]);
      }
      assert names == init + [n];
      RestrictSnoc(init, n, jar);
    }
  }

  /** Restricting a map to a list of names with one more name updates the restriction at that name. */
  lemma RestrictSnoc(init: seq<string>, n: string, jar: map<string, string>)
    requires forall k | 0 <= k < |init| :: init[k] in jar
    requires n in jar
    ensures Restrict(init + [n], jar) == Restrict(init, jar)[n := jar[n]]
  {
    var m1 := Restrict(init + [n], jar);
    var m0 := Restrict(init, jar);
    assert forall x :: x in init + [n] <==> x in init || x == n;
    assert m1.Keys == m0.Keys + {n};
  }

  /** The cookies read back from a saved non-empty jar of storable entries are that jar. */
  lemma RestoreSaved(account: string, names: seq<string>, jar: map<string, string>)
    requires '\n' !in account && Free(account, "->")
    requires Enumerates(names, jar.Keys) && jar != map[]
    requires forall n | n in jar :: Storable(n, jar[n]) && Plain(EntryText(n, jar[n]))
    ensures Restore(Record(account, EntryTexts(names, jar))) == Success(CookieDisk(account, jar))
  {
    var texts := EntryTexts(names, jar);
    assert ParseRecord(Record(account, texts)) == Some((account, texts)) by {
      var n :| n in jar;
      assert n in names;
      forall k | 0 <= k < |texts| ensures Plain(texts[k]) {
        assert names[k] in jar;
      }
      RecordRoundTrip(account, texts);
    }
    assert JarOf(texts) == Some(jar) by {
      forall k | 0 <= k < |names| ensures names[k] in jar && Storable(names[k], jar[names[k]]) {
        assert names[k] in jar;
      }
      JarOfEntries(names, jar);
      assert Restrict(names, jar) == jar;
    }
  }

  /**
   * Saving an empty jar writes an empty cookie list, which reads back as one
   * empty entry text: `load` then throws IllegalArgumentException.
   */
  lemma RestoreEmptyJar(account: string)
    requires '\n' !in account && Free(account, "->")
    ensures Restore(Record(account, [])) == Failure("IllegalArgumentException")
  {
    RecordRoundTrip(account, []);
    assert CookieOf("").None?;
  }

  // ---------------------------------------------------------------------------
  // The persistor
  // ---------------------------------------------------------------------------

  /** CookiePersistor: one session file `resource` on `disk`. */
  class CookiePersistor {
    const resource: string
    const disk: Disk

    constructor(resource: string, disk: Disk)
      ensures this.resource == resource && this.disk == disk
    {
      this.resource := resource;
      this.disk := disk;
    }

    /** exist: the session file is present. */
    method Exist() returns (b: bool)
      ensures b <==> resource in disk.files
    {
      b := resource in disk.files;
    }

    /**
     * save: writes the record of `account` and of the jar's entries, in the
     * jar's iteration order, over any previous contents.
     */
    method Save(account: string, cookieJar: map<string, string>)
      modifies disk
      ensures exists names :: Enumerates(names, cookieJar.Keys) &&
                disk.files == old(disk.files)[resource := Record(account, EntryTexts(names, cookieJar))]
    {
      var cksList: seq<string> := [];
      ghost var names: seq<string> := [];
      var rest := cookieJar.Keys;
      while rest != {}
        invariant rest <= cookieJar.Keys
        invariant forall k | 0 <= k < |names| :: names[k] in cookieJar && names[k] !in rest
        invariant forall i, j | 0 <= i < j < |names| :: names[i] != names[j]
        invariant forall n | n in cookieJar.Keys - rest :: n in names
        invariant cksList == EntryTexts(names, cookieJar)
        decreases |rest|
      {
        var name :| name in rest;
        cksList := cksList + [EntryText(name, cookieJar[name])];
        names := names + [name];
        rest := rest - {name};
      }
      assert Enumerates(names, cookieJar.Keys);
      disk.files := disk.files[resource := Record(account, cksList)];
    }

    /**
     * load: reads the file back, or the exception it throws: a missing file,
     * a split too short, or an entry text that is not a cookie.
     */
    method Load() returns (r: Result<CookieDisk>)
      ensures r == (if resource in disk.files then Restore(disk.files[resource]) else Failure("FileNotFoundException"))
    {
      if resource !in disk.files {
        return Failure("FileNotFoundException");
      }
      var parsed := ParseRecord(disk.files[resource]);
      if parsed.None? {
        return Failure("IndexOutOfBoundsException");
      }
      var (account, cookiesString) := parsed.value;
      var jar: map<string, string> := map[];
      var i := 0;
      while i < |cookiesString|
        invariant 0 <= i <= |cookiesString|
        invariant JarOf(cookiesString[..i]) == Some(jar)
      {
        var cks := CookieOf(cookiesString[i]);
        assert cookiesString[..i + 1][..i] == cookiesString[..i];
        if cks.None? {
          JarOfFails(cookiesString);
          return Failure("IllegalArgumentException");
        }
        jar := jar[cks.value.0 := cks.value.1];
        i := i + 1;
      }
      assert cookiesString[..i] == cookiesString;
      r := Success(CookieDisk(account, jar));
    }

    /** destroy: removes the session file if present; no other file changes. */
    method Destroy()
      modifies disk
      ensures disk.files == old(disk.files) - {resource}
      ensures resource !in disk.files
    {
      var present := Exist();
      if present {
        disk.files := disk.files - {resource};
      }
    }
  }
}
