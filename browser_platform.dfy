/** The browser fallback adapter: storage is the page's localStorage under a
    'krevetka_' key prefix; everything the browser cannot do reports a fixed
    "not available" answer. */
module BrowserPlatform {
  import opened JsBuiltins
  import UrlQuery

  const KeyPrefix: string := "krevetka_"

  /** What `storageGet` reports for key `k`: the stored text, "" when missing. */
  function ReadKey(local: map<string, string>, k: string): string {
    if KeyPrefix + k in local then local[KeyPrefix + k] else ""
  }

  lemma PrefixInjective(k1: string, k2: string)
    requires KeyPrefix + k1 == KeyPrefix + k2
    ensures k1 == k2
  {
    assert k1 == (KeyPrefix + k1)[|KeyPrefix|..];
    assert k2 == (KeyPrefix + k2)[|KeyPrefix|..];
  }

  /** After storageSet(k, v), key k reads v and every other key reads as before. */
  lemma ReadAfterWrite(local: map<string, string>, k: string, v: string, other: string)
    ensures ReadKey(local[KeyPrefix + k := v], k) == v
    ensures other != k ==> ReadKey(local[KeyPrefix + other := v], k) == ReadKey(local, k)
  {
    if other != k && KeyPrefix + other == KeyPrefix + k {
      PrefixInjective(other, k);
    }
  }

  class Browser {
    /** The page's localStorage. */
    var local: map<string, string>

    constructor (initial: map<string, string>)
      ensures local == initial
    {
      local := initial;
    }

    /** storageGet: one entry per requested key, "" for a missing one. */
    method StorageGet(keys: seq<string>) returns (result: map<string, string>)
      ensures result.Keys == set k | k in keys
      ensures forall k :: k in result ==> result[k] == ReadKey(local, k)
    {
      result := map[];
      var i := 0;
      while i < |keys|
        invariant 0 <= i <= |keys|
        invariant result.Keys == set k | k in keys[..i]
        invariant forall k :: k in result ==> result[k] == ReadKey(local, k)
      {
        assert keys[..i + 1] == keys[..i] + [keys[i]];
        result := result[keys[i] := ReadKey(local, keys[i])];
        i := i + 1;
      }
      assert keys[..i] == keys;
    }

    /** storageSet: writes `String(value)` under the prefixed key. */
    method StorageSet(key: string, value: string)
      modifies this
      ensures local == old(local)[KeyPrefix + key := value]
    {
      local := local[KeyPrefix + key := value];
    }
  }

  /** isAdmin: the query parameter `admin` is exactly 'true'. */
  function IsAdmin(search: string): (r: bool)
    ensures r <==> UrlQuery.Get(search, "admin") == Some("true")
  {
    UrlQuery.Get(search, "admin") == Some("true")
  }

  /** A page opened with `?admin=<v>` is an admin page exactly when v decodes
      to 'true'; so `?admin=tru%65` is one. */
  lemma AdminFlagInQuery(search: string, v: string)
    requires '&' !in v
    requires search == "?admin=" + v
    ensures IsAdmin(search) <==> UrlQuery.FormDecode(v) == "true"
    ensures v == "tru%65" ==> IsAdmin(search)
  {
    assert UrlQuery.IsPlainName("admin");
    UrlQuery.GetOfSinglePair(search, "admin", v);
    UrlQuery.EscapedTrueDecodes();
  }

  /** getUserId: the browser has no user id. */
  function GetUserId(): (r: Option<string>)
    ensures r.None?
  {
    None
  }

  /** shareStory: no story sharing in a browser. */
  function ShareStory(imageBase64: string): (r: bool)
    ensures !r
  {
    false
  }

  /** requestNotifications: no push permission in a browser. */
  function RequestNotifications(): (r: bool)
    ensures !r
  {
    false
  }

  /** purchase: payments are a capability the browser lacks. */
  function Purchase(): (r: PurchaseResult)
    ensures !r.success && r.reason == "not_supported"
  {
    PurchaseResult(false, "not_supported")
  }
}
