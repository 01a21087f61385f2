/**
  Validation of a Telegram Mini App's `initData` (src/site/init_data.rs),
  following Telegram's procedure "Validating data received via the Mini
  App": drop `hash` from the decoded fields, check `auth_date` is at most
  30 minutes old, sign the sorted `key=value` lines with HMAC-SHA256 under
  a key derived from the bot token with the constant key `WebAppData`, and
  compare with `hash`.

  HMAC-SHA256, `serde_urlencoded` and `serde_json` are library code; they
  are the `Libraries` value every operation takes. The clock is the `now`
  argument.
*/
module InitData {
  import opened Wrappers
  import opened RustStd
  import opened Decimal
  import opened LexOrder
  import opened Telegram
  import Hex

  /** `init_data::Error`; `BadData` carries the decoder's error in the source. */
  datatype Error = BadData | BadArgs | TooOld | HashMismatch | WTF

  /** Where `validate` panics instead of returning. */
  datatype PanicSite =
    | ClockUnderflow   // `SystemTime - Duration` below the clock's range
    | HashNotHex       // `hex::decode(hash).unwrap()`
    | UserMissing      // `pairs.remove("user").unwrap()`
    | UserNotJson      // `serde_json::from_str(..).unwrap()`

  datatype Outcome = Returned(result: Result<User, Error>) | Panicked(site: PanicSite)

  /** The `user` field of init data, as JSON decodes it. */
  datatype WebAppUser = WebAppUser(
    id: u64,
    firstName: string,
    lastName: Option<string>,
    username: Option<string>,
    languageCode: Option<string>,
    isPremium: Option<bool>,
    allowsWriteToPm: bool)

  type Nanos = n: int | 0 <= n < 1_000_000_000

  /** A `SystemTime` on Unix: seconds since the epoch and the nanoseconds of that second. */
  datatype SystemTime = SystemTime(secs: i64, nanos: Nanos)

  /** The library calls `validate` makes, as given functions. */
  datatype Libraries = Libraries(
    urlDecode: seq<byte> -> Option<seq<(string, string)>>,   // `serde_urlencoded::from_bytes`, as pairs
    hmacSha256: (seq<byte>, seq<byte>) -> seq<byte>,         // HMAC-SHA256(key, message)
    parseUser: string -> Option<WebAppUser>)                 // `serde_json::from_str::<WebAppUser>`

  /** Thirty minutes, in seconds. */
  const MaxAge: nat := 1800

  /** `From<WebAppUser> for User`. */
  function FromWebAppUser(w: WebAppUser): (u: User)
    ensures u.id == w.id && u.firstName == w.firstName && u.lastName == w.lastName
    ensures u.username == w.username && u.languageCode == w.languageCode
    ensures !u.isBot && !u.addedToAttachmentMenu
    ensures u.isPremium <==> w.isPremium == Some(true)
  {
    User(w.id, false, w.firstName, w.lastName, w.username, w.languageCode,
         match w.isPremium case Some(b) => b case None => false, false)
  }

  /** The conversion on the record of the source's own unit test. */
  lemma UserParsedSuccessfully()
    ensures FromWebAppUser(WebAppUser(113472905, "Leonid", Some("Burdikov"), Some("reina_bailando"),
                                      Some("en"), Some(true), true))
         == User(113472905, false, "Leonid", Some("Burdikov"), Some("reina_bailando"),
                 Some("en"), true, false)
  {
  }

  predicate DistinctKeys(ps: seq<(string, string)>)
  {
    forall i, j :: 0 <= i < j < |ps| ==> ps[i].0 != ps[j].0
  }

  /** `ps[i]` is the last pair with key `k`. */
  predicate IsLast(ps: seq<(string, string)>, i: int, k: string)
  {
    0 <= i < |ps| && ps[i].0 == k && forall j :: i < j < |ps| ==> ps[j].0 != k
  }

  /** Collecting decoded pairs into a `HashMap<String, String>`; a later duplicate replaces an earlier one. */
  function ToMap(ps: seq<(string, string)>): map<string, string>
  {
    if ps == [] then map[]
    else ToMap(ps[..|ps| - 1])[ps[|ps| - 1].0 := ps[|ps| - 1].1]
  }

  /** Every decoded key is in the map. */
  lemma {:induction false} ToMapHasEveryKey(ps: seq<(string, string)>, i: int)
    requires 0 <= i < |ps|
    ensures ps[i].0 in ToMap(ps)
  {
    if i < |ps| - 1 {
      ToMapHasEveryKey(ps[..|ps| - 1], i);
    }
  }

  /** Each key holds the value of its LAST occurrence. */
  lemma {:induction false} ToMapLastWins(ps: seq<(string, string)>, k: string)
    requires k in ToMap(ps)
    ensures exists i :: IsLast(ps, i, k) && ps[i].1 == ToMap(ps)[k]
  {
    var init, last := ps[..|ps| - 1], ps[|ps| - 1];
    if k == last.0 {
      assert IsLast(ps, |ps| - 1, k);
    } else {
      ToMapLastWins(init, k);
      var i :| IsLast(init, i, k) && init[i].1 == ToMap(init)[k];
      assert IsLast(ps, i, k);
    }
  }

  /** With distinct keys the map holds exactly the pairs, so their order does not matter. */
  lemma PairOrderIrrelevant(ps: seq<(string, string)>, qs: seq<(string, string)>)
    requires DistinctKeys(ps) && DistinctKeys(qs)
    requires forall p :: p in ps <==> p in qs
    ensures ToMap(ps) == ToMap(qs)
  {
    var m, n := ToMap(ps), ToMap(qs);
    forall k | k in m ensures k in n && n[k] == m[k] {
      ToMapLastWins(ps, k);
      var i :| IsLast(ps, i, k) && ps[i].1 == m[k];
      assert ps[i] in qs;
      var j :| 0 <= j < |qs| && qs[j] == ps[i];
      ToMapHasEveryKey(qs, j);
      ToMapLastWins(qs, k);
      var j' :| IsLast(qs, j', k) && qs[j'].1 == n[k];
      assert j == j';
    }
    forall k | k in n ensures k in m {
      ToMapLastWins(qs, k);
      var j :| IsLast(qs, j, k) && qs[j].1 == n[k];
      assert qs[j] in ps;
      var i :| 0 <= i < |ps| && ps[i] == qs[j];
      ToMapHasEveryKey(ps, i);
    }
  }

  /** One line of the data-check-string. */
  function Line(k: string, v: string): string
  {
    k + "=" + v + "\n"
  }

  /** The lines for `keys`, in that order, written one after another. */
  function Concat(m: map<string, string>, keys: seq<string>): string
    requires forall k :: k in keys ==> k in m
  {
    if keys == [] then ""
    else Concat(m, keys[..|keys| - 1]) + Line(keys[|keys| - 1], m[keys[|keys| - 1]])
  }

  /** The `key=value` entries for `keys`, without line ends. */
  function Entries(m: map<string, string>, keys: seq<string>): (r: seq<string>)
    requires forall k :: k in keys ==> k in m
    ensures |r| == |keys|
  {
    if keys == [] then []
    else
      var k := keys[|keys| - 1];
      Entries(m, keys[..|keys| - 1]) + [k + "=" + m[k]]
  }

  /** Some enumeration of a finite set of strings, each element once. */
  ghost function Enumerate(s: set<string>): (r: seq<string>)
    ensures Distinct(r) && forall y :: y in r <==> y in s
    decreases s
  {
    if s == {} then []
    else
      var x :| x in s;
      [x] + Enumerate(s - {x})
  }

  /** The map's keys in ascending order (`keys.sort()` on `pairs.keys()`). */
  ghost function SortedKeys(m: map<string, string>): (r: seq<string>)
    ensures StrictlySorted(r) && forall y :: y in r <==> y in m
  {
    Sort(Enumerate(m.Keys))
  }

  /** Telegram's data-check-string for the fields left after removing `hash`. */
  ghost function DataCheckString(m: map<string, string>): string
  {
    Trim(Concat(m, SortedKeys(m)))
  }

  /** The HMAC over `dcs` under the key HMAC-SHA256("WebAppData", token). */
  function Signature(libs: Libraries, token: seq<byte>, dcs: string): seq<byte>
  {
    libs.hmacSha256(libs.hmacSha256(Utf8("WebAppData"), token), Utf8(dcs))
  }

  /** `SystemTime::now() - Duration::from_secs(d)` leaves the clock's range and panics. */
  predicate ClockUnderflows(now: SystemTime, d: u64)
  {
    now.secs - d < -0x8000_0000_0000_0000
  }

  /** `now - d > UNIX_EPOCH + 1800 s`, comparing `(secs, nanos)` lexicographically. */
  predicate Stale(now: SystemTime, d: u64)
  {
    now.secs - d > MaxAge || (now.secs - d == MaxAge && now.nanos > 0)
  }

  /** Stale means: strictly more than thirty minutes lie between `d` and `now`. */
  lemma StaleMeansOlderThanThirtyMinutes(now: SystemTime, d: u64)
    ensures Stale(now, d) <==> (now.secs - d) * 1_000_000_000 + now.nanos > MaxAge * 1_000_000_000
  {
    var e := now.secs - d;
    if e < MaxAge {
      assert e * 1_000_000_000 <= (MaxAge - 1) * 1_000_000_000;
    } else if e > MaxAge {
      assert e * 1_000_000_000 >= (MaxAge + 1) * 1_000_000_000;
    }
  }

  /**
    The `auth_date` check: `None` when it passes (or is skipped), otherwise
    the outcome `validate` ends with.
  */
  function AgeCheck(pairs: map<string, string>, ignoreAge: bool, now: SystemTime): Option<Outcome>
  {
    if ignoreAge then None
    else if "auth_date" !in pairs then Some(Returned(Err(WTF)))
    else
      match ParseU64(pairs["auth_date"])
      case None => Some(Returned(Err(WTF)))
      case Some(d) =>
        if ClockUnderflows(now, d) then Some(Panicked(ClockUnderflow))
        else if Stale(now, d) then Some(Returned(Err(TooOld)))
        else None
  }

  /** The steps after the age check: compare the signature, then read `user`. */
  function Finish(libs: Libraries, token: seq<byte>, hash: string, dcs: string,
                  pairs: map<string, string>): Outcome
  {
    match Hex.Decode(hash)
    case None => Panicked(HashNotHex)
    case Some(h) =>
      if Signature(libs, token, dcs) != h then Returned(Err(HashMismatch))
      else if "user" !in pairs then Panicked(UserMissing)
      else
        match libs.parseUser(pairs["user"])
        case None => Panicked(UserNotJson)
        case Some(w) => Returned(Ok(FromWebAppUser(w)))
  }

  /** What `validate(data, token, ignore_age)` does, at time `now`. */
  ghost function Validation(libs: Libraries, data: seq<byte>, token: seq<byte>,
                            ignoreAge: bool, now: SystemTime): Outcome
  {
    if |data| == 0 || |token| == 0 then Returned(Err(BadArgs))
    else
      match libs.urlDecode(data)
      case None => Returned(Err(BadData))
      case Some(ps) =>
        var all := ToMap(ps);
        if "hash" !in all then Returned(Err(WTF))
        else
          var pairs := all - {"hash"};
          match AgeCheck(pairs, ignoreAge, now)
          case Some(o) => o
          case None => Finish(libs, token, all["hash"], DataCheckString(pairs), pairs)
  }

  /**
    `pairs.keys().collect()` followed by `keys.sort()`. The keys are taken
    in whatever order the map yields them; sorting makes the result the
    same for every such order.
  */
  method CollectSortedKeys(pairs: map<string, string>) returns (keys: seq<string>)
    ensures keys == SortedKeys(pairs)
  {
    keys := [];
    var rest := pairs.Keys;
    while rest != {}
      invariant rest <= pairs.Keys
      invariant forall k :: k in keys <==> k in pairs && k !in rest
      invariant Distinct(keys)
      decreases rest
    {
      var k :| k in rest;
      keys := keys + [k];
      rest := rest - {k};
    }
    keys := Sort(keys);
    SortedUnique(keys, SortedKeys(pairs));
  }

  /** The `for key in keys` loop pushing `key`, `=`, the value and `\n` onto the data-check-string. */
  method WriteLines(pairs: map<string, string>, keys: seq<string>) returns (s: string)
    requires forall k :: k in keys ==> k in pairs
    ensures s == Concat(pairs, keys)
  {
    s := "";
    for i := 0 to |keys|
      invariant s == Concat(pairs, keys[..i])
    {
      assert keys[..i + 1][..i] == keys[..i];
      s := s + keys[i] + "=" + pairs[keys[i]] + "\n";
    }
    assert keys[..|keys|] == keys;
  }

  /**
    `validate`. The keys are visited in whatever order the map yields them
    and then sorted; the result is the same for every such order.
  */
  method Validate(libs: Libraries, data: seq<byte>, token: seq<byte>, ignoreAge: bool, now: SystemTime)
    returns (r: Outcome)
    ensures r == Validation(libs, data, token, ignoreAge, now)
  {
    if |data| == 0 || |token| == 0 {
      return Returned(Err(BadArgs));
    }
    var decoded := libs.urlDecode(data);
    if decoded.None? {
      return Returned(Err(BadData));
    }
    var pairs := ToMap(decoded.value);
    if "hash" !in pairs {
      return Returned(Err(WTF));
    }
    var hash := pairs["hash"];
    pairs := pairs - {"hash"};

    if !ignoreAge {
      if "auth_date" !in pairs {
        return Returned(Err(WTF));
      }
      var seconds := ParseU64(pairs["auth_date"]);
      if seconds.None? {
        return Returned(Err(WTF));
      }
      if ClockUnderflows(now, seconds.value) {
        return Panicked(ClockUnderflow);
      }
      if Stale(now, seconds.value) {
        return Returned(Err(TooOld));
      }
    }

    var keys := CollectSortedKeys(pairs);
    var dataCheckString := WriteLines(pairs, keys);

    var key := libs.hmacSha256(Utf8("WebAppData"), token);
    var mac := libs.hmacSha256(key, Utf8(Trim(dataCheckString)));

    var expected := Hex.Decode(hash);
    if expected.None? {
      return Panicked(HashNotHex);
    }
    if mac != expected.value {
      return Returned(Err(HashMismatch));
    }

    if "user" !in pairs {
      return Panicked(UserMissing);
    }
    var u := pairs["user"];
    pairs := pairs - {"user"};
    var w := libs.parseUser(u);
    if w.None? {
      return Panicked(UserNotJson);
    }
    return Returned(Ok(FromWebAppUser(w.value)));
  }

  /** A key is in the map exactly when some decoded pair has it. */
  lemma ToMapKeys(ps: seq<(string, string)>, k: string)
    ensures k in ToMap(ps) <==> exists i :: 0 <= i < |ps| && ps[i].0 == k
  {
    if k in ToMap(ps) {
      ToMapLastWins(ps, k);
    }
    if i :| 0 <= i < |ps| && ps[i].0 == k {
      ToMapHasEveryKey(ps, i);
    }
  }

  /** Empty data or an empty token is refused before anything is decoded, and nothing else is. */
  lemma BadArgsExactly(libs: Libraries, data: seq<byte>, token: seq<byte>, ignoreAge: bool, now: SystemTime)
    ensures Validation(libs, data, token, ignoreAge, now) == Returned(Err(BadArgs)) <==> |data| == 0 || |token| == 0
  {
  }

  /** `BadData` is exactly a decoder failure on acceptable arguments. */
  lemma BadDataExactly(libs: Libraries, data: seq<byte>, token: seq<byte>, ignoreAge: bool, now: SystemTime)
    ensures Validation(libs, data, token, ignoreAge, now) == Returned(Err(BadData))
        <==> |data| > 0 && |token| > 0 && libs.urlDecode(data).None?
  {
  }

  /** Without a `hash` field the Bot API contract is broken: `WTF`, whatever else the data holds. */
  lemma MissingHash(libs: Libraries, data: seq<byte>, token: seq<byte>, ignoreAge: bool, now: SystemTime,
                    ps: seq<(string, string)>)
    requires |data| > 0 && |token| > 0 && libs.urlDecode(data) == Some(ps)
    requires forall i :: 0 <= i < |ps| ==> ps[i].0 != "hash"
    ensures Validation(libs, data, token, ignoreAge, now) == Returned(Err(WTF))
  {
    ToMapKeys(ps, "hash");
  }

  /** With the age check on, a missing `auth_date`, or one that is not a `u64`, gives `WTF`. */
  lemma MissingAuthDate(libs: Libraries, data: seq<byte>, token: seq<byte>, now: SystemTime,
                        ps: seq<(string, string)>)
    requires |data| > 0 && |token| > 0 && libs.urlDecode(data) == Some(ps)
    requires "hash" in ToMap(ps)
    requires "auth_date" !in ToMap(ps) || ParseU64(ToMap(ps)["auth_date"]).None?
    ensures Validation(libs, data, token, false, now) == Returned(Err(WTF))
  {
  }

  /** The age check passes exactly when `auth_date` reads as a `u64` at most thirty minutes old. */
  lemma FreshExactly(pairs: map<string, string>, now: SystemTime)
    ensures AgeCheck(pairs, false, now) == None <==>
      "auth_date" in pairs && ParseU64(pairs["auth_date"]).Some? &&
      !ClockUnderflows(now, ParseU64(pairs["auth_date"]).value) &&
      !Stale(now, ParseU64(pairs["auth_date"]).value)
  {
  }

  /**
    With the age check on, the result is `TooOld` exactly when the data is
    stale. The check comes before the signature is looked at, so stale data
    is `TooOld` even when it is correctly signed.
  */
  lemma TooOldExactly(libs: Libraries, data: seq<byte>, token: seq<byte>, now: SystemTime,
                      ps: seq<(string, string)>, d: u64)
    requires |data| > 0 && |token| > 0 && libs.urlDecode(data) == Some(ps)
    requires "hash" in ToMap(ps) && "auth_date" in ToMap(ps)
    requires ParseU64(ToMap(ps)["auth_date"]) == Some(d) && !ClockUnderflows(now, d)
    ensures Validation(libs, data, token, false, now) == Returned(Err(TooOld)) <==> Stale(now, d)
  {
  }

  /** With `ignore_age` the clock is never read: the result does not depend on it and is never `TooOld`. */
  lemma IgnoreAgeNeverReadsClock(libs: Libraries, data: seq<byte>, token: seq<byte>,
                                 now1: SystemTime, now2: SystemTime)
    ensures Validation(libs, data, token, true, now1) == Validation(libs, data, token, true, now2)
    ensures Validation(libs, data, token, true, now1) != Returned(Err(TooOld))
    ensures Validation(libs, data, token, true, now1) != Panicked(ClockUnderflow)
  {
    if |data| > 0 && |token| > 0 && libs.urlDecode(data).Some? {
      var all := ToMap(libs.urlDecode(data).value);
      if "hash" in all {
        var pairs := all - {"hash"};
        assert AgeCheck(pairs, true, now1) == None && AgeCheck(pairs, true, now2) == None;
        FinishNeverAgeOutcome(libs, token, all["hash"], DataCheckString(pairs), pairs);
      }
    }
  }

  /** The steps after the age check never report age or read the clock. */
  lemma FinishNeverAgeOutcome(libs: Libraries, token: seq<byte>, hash: string, dcs: string,
                              pairs: map<string, string>)
    ensures Finish(libs, token, hash, dcs, pairs) != Returned(Err(TooOld))
    ensures Finish(libs, token, hash, dcs, pairs) != Panicked(ClockUnderflow)
  {
  }

  /**
    Past the age check and with a hex `hash`, the result is `HashMismatch`
    exactly when the HMAC of the data-check-string differs from it.
  */
  lemma HashMismatchExactly(libs: Libraries, data: seq<byte>, token: seq<byte>, ignoreAge: bool,
                            now: SystemTime, ps: seq<(string, string)>, h: seq<byte>)
    requires |data| > 0 && |token| > 0 && libs.urlDecode(data) == Some(ps)
    requires "hash" in ToMap(ps) && Hex.Decode(ToMap(ps)["hash"]) == Some(h)
    requires AgeCheck(ToMap(ps) - {"hash"}, ignoreAge, now) == None
    ensures Validation(libs, data, token, ignoreAge, now) == Returned(Err(HashMismatch))
        <==> Signature(libs, token, DataCheckString(ToMap(ps) - {"hash"})) != h
  {
  }

  /** Fresh data whose `hash` is the hex of its signature is accepted, with its `user` converted. */
  lemma SignedFreshAccepted(libs: Libraries, data: seq<byte>, token: seq<byte>, ignoreAge: bool,
                            now: SystemTime, ps: seq<(string, string)>, w: WebAppUser)
    requires |data| > 0 && |token| > 0 && libs.urlDecode(data) == Some(ps)
    requires "hash" in ToMap(ps)
    requires ToMap(ps)["hash"] == Hex.Encode(Signature(libs, token, DataCheckString(ToMap(ps) - {"hash"})))
    requires AgeCheck(ToMap(ps) - {"hash"}, ignoreAge, now) == None
    requires "user" in ToMap(ps) && libs.parseUser(ToMap(ps)["user"]) == Some(w)
    ensures Validation(libs, data, token, ignoreAge, now) == Returned(Ok(FromWebAppUser(w)))
  {
    Hex.DecodeEncode(Signature(libs, token, DataCheckString(ToMap(ps) - {"hash"})));
  }

  /**
    A user is returned only for data that decoded, passed the age check,
    carries the right signature in `hash`, and whose `user` field decoded
    to the record the user came from.
  */
  lemma AcceptedOnlyIfSigned(libs: Libraries, data: seq<byte>, token: seq<byte>, ignoreAge: bool,
                             now: SystemTime, u: User)
    requires Validation(libs, data, token, ignoreAge, now) == Returned(Ok(u))
    ensures |data| > 0 && |token| > 0 && libs.urlDecode(data).Some?
    ensures var m := ToMap(libs.urlDecode(data).value);
      && "hash" in m
      && Hex.Decode(m["hash"]) == Some(Signature(libs, token, DataCheckString(m - {"hash"})))
      && AgeCheck(m - {"hash"}, ignoreAge, now) == None
      && "user" in m && libs.parseUser(m["user"]).Some?
      && u == FromWebAppUser(libs.parseUser(m["user"]).value)
  {
    var m := ToMap(libs.urlDecode(data).value);
    var pairs := m - {"hash"};
    assert AgeCheck(pairs, ignoreAge, now) == None;
    assert Finish(libs, token, m["hash"], DataCheckString(pairs), pairs) == Returned(Ok(u));
  }

  lemma {:induction false} ConcatAppend(m: map<string, string>, a: seq<string>, b: seq<string>)
    requires forall k :: k in a + b ==> k in m
    ensures Concat(m, a + b) == Concat(m, a) + Concat(m, b)
  {
    if b == [] {
      assert a + b == a;
    } else {
      assert (a + b)[..|a + b| - 1] == a + b[..|b| - 1];
      ConcatAppend(m, a, b[..|b| - 1]);
    }
  }

  /** Every field except `hash` has its own `key=value` line, in key order, in the written lines before `trim`. */
  lemma EveryFieldSigned(m: map<string, string>, k: string)
    requires k in m
    ensures exists i ::
      (0 <= i < |SortedKeys(m)| && SortedKeys(m)[i] == k &&
       Concat(m, SortedKeys(m)) == Concat(m, SortedKeys(m)[..i]) + Line(k, m[k]) + Concat(m, SortedKeys(m)[i + 1..]))
  {
    var ks := SortedKeys(m);
    var i :| 0 <= i < |ks| && ks[i] == k;
    assert ks == ks[..i] + [k] + ks[i + 1..];
    ConcatAppend(m, ks[..i] + [k], ks[i + 1..]);
    ConcatAppend(m, ks[..i], [k]);
    assert [k][..0] == [];
  }

  /** The written lines are the `key=value` entries joined by `\n`, plus a final `\n`. */
  lemma {:induction false} ConcatIsJoin(m: map<string, string>, ks: seq<string>)
    requires forall k :: k in ks ==> k in m
    requires ks != []
    ensures Concat(m, ks) == Join(Entries(m, ks), "\n") + "\n"
  {
    var init, k := ks[..|ks| - 1], ks[|ks| - 1];
    if init == [] {
      assert Entries(m, ks) == [k + "=" + m[k]];
    } else {
      ConcatIsJoin(m, init);
      JoinSnoc(Entries(m, init), k + "=" + m[k], "\n");
    }
  }

  /** `trim` removes the final line end of an unpadded text and nothing else. */
  lemma TrimFinalNewline(j: string)
    requires j == [] || (!IsWhitespace(j[0]) && !IsWhitespace(j[|j| - 1]))
    ensures Trim(j + "\n") == j
  {
    assert AllWhitespace("\n") && AllWhitespace("");
    TrimIgnoresPadding("", j, "\n");
    assert "" + j + "\n" == j + "\n";
    TrimOfUnpadded(j);
  }

  /**
    Telegram's recipe, the entries in key order joined by `\n`, is what
    gets signed whenever that text does not start or end in whitespace
    (which `trim` would remove).
  */
  lemma DataCheckStringIsJoin(m: map<string, string>)
    ensures var j := Join(Entries(m, SortedKeys(m)), "\n");
      (j == [] || (!IsWhitespace(j[0]) && !IsWhitespace(j[|j| - 1]))) ==> DataCheckString(m) == j
  {
    var ks := SortedKeys(m);
    var j := Join(Entries(m, ks), "\n");
    if j == [] || (!IsWhitespace(j[0]) && !IsWhitespace(j[|j| - 1])) {
      if ks != [] {
        ConcatIsJoin(m, ks);
        TrimFinalNewline(j);
      }
    }
  }
}
