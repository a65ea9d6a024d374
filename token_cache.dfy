/**
 * The SSO token cache: the first usable access token found among the JSON
 * files of the cache directory, or the device-authorization flow when
 * there is none. The clock is the parameter `now`; a timestamp is an
 * integer and 0 stands for Go's zero time.
 */
module TokenCache {
  import opened Wrappers
  import opened GoStrings

  /** What reading and decoding one cache file gives. */
  datatype CacheFile =
    | Unreadable                                  // os.ReadFile failed
    | Malformed                                   // json.Unmarshal failed
    | Decoded(accessToken: string, expiresAt: int) // SSOCacheEntry, missing fields zero

  /** A directory entry: its name and what its file holds. */
  datatype DirEntry = DirEntry(name: string, file: CacheFile)

  /** An entry `getCurrentToken` accepts: a `.json` file that decodes to a
      non-empty token with a non-zero expiry that `now` is not after. */
  predicate Usable(e: DirEntry, now: int) {
    && HasSuffix(e.name, ".json")
    && e.file.Decoded?
    && e.file.accessToken != ""
    && e.file.expiresAt != 0
    && !(now > e.file.expiresAt)
  }

  /** The token of the first usable entry; `entries` are in the order
      `os.ReadDir` returns them, sorted by file name. A token found is
      never empty. */
  function FirstUsableToken(entries: seq<DirEntry>, now: int): (r: Option<string>)
    ensures r.Some? ==> r.value != ""
  {
    if entries == [] then None
    else if Usable(entries[0], now) then Some(entries[0].file.accessToken)
    else FirstUsableToken(entries[1..], now)
  }

  /** A token comes from the first usable entry; there is none exactly when
      no entry is usable. So an expired, empty or undated entry, or one that
      is not a `.json` file, never supplies the token. */
  lemma {:induction false} FirstUsableTokenIsFirst(entries: seq<DirEntry>, now: int)
    ensures FirstUsableToken(entries, now).None? <==> forall i :: 0 <= i < |entries| ==> !Usable(entries[i], now)
    ensures FirstUsableToken(entries, now).Some? ==>
      exists i :: 0 <= i < |entries| && Usable(entries[i], now)
        && FirstUsableToken(entries, now).value == entries[i].file.accessToken
        && forall j :: 0 <= j < i ==> !Usable(entries[j], now)
  {
    if entries != [] {
      FirstUsableTokenIsFirst(entries[1..], now);
      if !Usable(entries[0], now) {
        if FirstUsableToken(entries, now).Some? {
          var i :| 0 <= i < |entries[1..]| && Usable(entries[1..][i], now)
            && FirstUsableToken(entries, now).value == entries[1..][i].file.accessToken
            && forall j :: 0 <= j < i ==> !Usable(entries[1..][j], now);
          assert entries[i + 1] == entries[1..][i];
          forall j | 0 <= j < i + 1 ensures !Usable(entries[j], now) {
            if j > 0 { assert entries[j] == entries[1..][j - 1]; }
          }
        } else {
          forall i | 0 <= i < |entries| ensures !Usable(entries[i], now) {
            if i > 0 { assert entries[i] == entries[1..][i - 1]; }
          }
        }
      }
    }
  }

  /** `getCurrentToken`: None when the home or cache directory cannot be
      read (`cacheDir` is None), else the first usable entry's token. */
  method GetCurrentToken(cacheDir: Option<seq<DirEntry>>, now: int) returns (token: Option<string>)
    ensures cacheDir.None? ==> token.None?
    ensures cacheDir.Some? ==> token == FirstUsableToken(cacheDir.value, now)
  {
    if cacheDir.None? {
      return None;
    }
    var entries := cacheDir.value;
    for i := 0 to |entries|
      invariant FirstUsableToken(entries[i..], now) == FirstUsableToken(entries, now)
    {
      var entry := entries[i];
      assert entries[i..][0] == entry && entries[i..][1..] == entries[i + 1..];
      if !HasSuffix(entry.name, ".json") {
        continue;
      }
      if entry.file.Unreadable? {
        continue;
      }
      if entry.file.Malformed? {
        continue;
      }
      var cacheEntry := entry.file;
      if cacheEntry.accessToken == "" || cacheEntry.expiresAt == 0 {
        continue;
      }
      if now > cacheEntry.expiresAt {
        continue;
      }
      return Some(cacheEntry.accessToken);
    }
    return None;
  }

  /** Where `GetToken`'s token came from. */
  datatype TokenSource = FromCache | FromDeviceFlow

  /** `GetToken`: the cached token when there is one; only otherwise is the
      device-authorization flow run, and its token (`deviceFlowToken`,
      possibly nil) is returned as is. */
  method GetToken(cacheDir: Option<seq<DirEntry>>, now: int, deviceFlowToken: Option<string>)
    returns (token: Option<string>, source: TokenSource)
    ensures source == FromCache <==> cacheDir.Some? && FirstUsableToken(cacheDir.value, now).Some?
    ensures source == FromCache ==> token == FirstUsableToken(cacheDir.value, now)
    ensures source == FromDeviceFlow ==> token == deviceFlowToken
  {
    token := GetCurrentToken(cacheDir, now);
    if token.Some? {
      return token, FromCache;
    }
    return deviceFlowToken, FromDeviceFlow;
  }

  /** An entry that expires exactly now is still accepted. */
  lemma ExpiringNowIsUsable(name: string, token: string, now: int)
    requires HasSuffix(name, ".json") && token != "" && now != 0
    ensures Usable(DirEntry(name, Decoded(token, now)), now)
  {
  }

  /** An entry that cannot be used (expired, undated, empty, unreadable,
      malformed or not `.json`) has no effect on the result, wherever it
      sits in the directory. */
  lemma {:induction false} UnusableEntryIgnored(before: seq<DirEntry>, e: DirEntry, after: seq<DirEntry>, now: int)
    requires !Usable(e, now)
    ensures FirstUsableToken(before + [e] + after, now) == FirstUsableToken(before + after, now)
  {
    if before == [] {
      assert before + [e] + after == [e] + after;
      assert ([e] + after)[1..] == after;
      assert before + after == after;
    } else {
      UnusableEntryIgnored(before[1..], e, after, now);
      assert (before + [e] + after)[1..] == before[1..] + [e] + after;
      assert (before + after)[1..] == before[1..] + after;
      assert (before + [e] + after)[0] == before[0] == (before + after)[0];
    }
  }
}
