/** The social-network host adapter: share links into the mini-app, the admin
    decision over the host's launch parameters and the page query, the folding
    of the host's key/value storage reply, and the story-box payload. Every host
    request is a parameter: None stands for a request that threw. */
module VkPlatform {
  import opened JsBuiltins
  import UrlQuery

  const ADMIN_IDS: seq<string> := ["123456789", "2635817"]

  const APP_URL: string := "https://vk.com/app54437141"

  /** The `{ cardId, mode }` context a share passes; None is an absent field. */
  datatype ShareContext = ShareContext(cardId: Option<int>, mode: Option<string>)

  predicate HasCardId(context: Option<ShareContext>) {
    context.Some? && context.value.cardId.Some? && context.value.cardId.value != 0
  }

  /** `context.mode || ''` */
  function ModeText(c: ShareContext): string {
    if c.mode.Some? then c.mode.value else ""
  }

  /** buildUrl: the app link, with a `#card=<id>&mode=<mode>` fragment when the
      context carries a (truthy) card id. */
  function BuildUrl(context: Option<ShareContext>): (url: string)
    ensures StartsWith(url, APP_URL)
    ensures !HasCardId(context) <==> url == APP_URL
  {
    if HasCardId(context) then
      APP_URL + "#card=" + IntToString(context.value.cardId.value) + "&mode=" + ModeText(context.value)
    else APP_URL
  }

  /** The card id a share link carries: parseInt of the text after `#card=`. */
  function CardIdOfUrl(url: string): Option<int> {
    var head := APP_URL + "#card=";
    if StartsWith(url, head) then ParseInt(url[|head|..]) else None
  }

  /** The link a share builds leads back to the shared card, and a link without
      a card id carries none. */
  lemma CardIdOfBuildUrl(context: Option<ShareContext>)
    ensures HasCardId(context) ==> CardIdOfUrl(BuildUrl(context)) == Some(context.value.cardId.value)
    ensures !HasCardId(context) ==> CardIdOfUrl(BuildUrl(context)).None?
  {
    var head := APP_URL + "#card=";
    if HasCardId(context) {
      var id := context.value.cardId.value;
      var rest := "&mode=" + ModeText(context.value);
      var url := BuildUrl(context);
      assert url == head + (IntToString(id) + rest);
      assert url[|head|..] == IntToString(id) + rest;
      ParseIntOfIntToStringThen(id, rest);
    }
  }

  // ---------------------------------------------------------------------------
  // Admin decision

  /** The launch parameters the host reports: the viewer's group role and the
      numeric user id, each possibly absent. */
  datatype LaunchParams = LaunchParams(role: Option<string>, userId: Option<int>)

  predicate IsAdminRole(role: Option<string>) {
    role == Some("admin") || role == Some("editor")
  }

  /** The launch-parameter half of isAdmin. */
  predicate LaunchSaysAdmin(launch: Option<LaunchParams>) {
    launch.Some? &&
    (IsAdminRole(launch.value.role) ||
     (launch.value.userId.Some? && launch.value.userId.value != 0 &&
      IntToString(launch.value.userId.value) in ADMIN_IDS))
  }

  /** The page-query half of isAdmin. */
  predicate QuerySaysAdmin(search: string) {
    var userId := UrlQuery.Get(search, "vk_user_id");
    IsAdminRole(UrlQuery.Get(search, "vk_viewer_group_role")) ||
    (userId.Some? && userId.value != "" && userId.value in ADMIN_IDS)
  }

  /** isAdmin: the launch parameters are asked first (None: the request threw),
      then the page query is consulted, in the order the checks run. */
  function IsAdmin(launch: Option<LaunchParams>, search: string): (r: bool)
    ensures r <==> LaunchSaysAdmin(launch) || QuerySaysAdmin(search)
    ensures launch.None? ==> (r <==> QuerySaysAdmin(search))
  {
    if launch.Some? && IsAdminRole(launch.value.role) then true
    else if launch.Some? && launch.value.userId.Some? && launch.value.userId.value != 0
            && IntToString(launch.value.userId.value) in ADMIN_IDS then true
    else if IsAdminRole(UrlQuery.Get(search, "vk_viewer_group_role")) then true
    else
      var userId := UrlQuery.Get(search, "vk_user_id");
      userId.Some? && userId.value != "" && userId.value in ADMIN_IDS
  }

  /** The two query parameters this adapter reads need no escaping. */
  lemma QueryNamesArePlain()
    ensures UrlQuery.IsPlainName("vk_user_id") && UrlQuery.IsPlainName("vk_viewer_group_role")
  {
  }

  /** Opened with only `?vk_user_id=<v>` and no launch parameters, the viewer is
      an admin exactly when v decodes to one of the admin ids. */
  lemma AdminByQueryUserId(search: string, v: string)
    requires '&' !in v
    requires search == "?vk_user_id=" + v
    ensures IsAdmin(None, search) <==> UrlQuery.FormDecode(v) in ADMIN_IDS
  {
    assert "?vk_user_id=" == "?" + "vk_user_id" + "=";
    QueryNamesArePlain();
    UrlQuery.GetOfSinglePair(search, "vk_user_id", v);
    assert UrlQuery.Get(search, "vk_viewer_group_role").None?;
    var d := UrlQuery.FormDecode(v);
    assert QuerySaysAdmin(search) <==> (d != "" && d in ADMIN_IDS);
  }

  /** Opened with only `?vk_viewer_group_role=<r>`, the viewer is an admin exactly
      when r decodes to 'admin' or 'editor'. */
  lemma AdminByQueryRole(search: string, r: string)
    requires '&' !in r
    requires search == "?vk_viewer_group_role=" + r
    ensures IsAdmin(None, search) <==> (UrlQuery.FormDecode(r) == "admin" || UrlQuery.FormDecode(r) == "editor")
  {
    assert "?vk_viewer_group_role=" == "?" + "vk_viewer_group_role" + "=";
    QueryNamesArePlain();
    UrlQuery.GetOfSinglePair(search, "vk_viewer_group_role", r);
    assert UrlQuery.Get(search, "vk_user_id").None?;
    var d := UrlQuery.FormDecode(r);
    assert QuerySaysAdmin(search) <==> IsAdminRole(Some(d));
  }

  /** So an escaped role such as `%61dmin` makes the viewer an admin. */
  lemma EscapedRoleIsAdmin()
    ensures IsAdmin(None, "?vk_viewer_group_role=%61dmin")
  {
    var q := "?vk_viewer_group_role=" + "%61dmin";
    assert q == "?vk_viewer_group_role=%61dmin";
    UrlQuery.EscapedAdminDecodes();
    AdminByQueryRole(q, "%61dmin");
  }

  /** getUserId: the launch user id (null when absent or 0); when the launch
      request throws, the `vk_user_id` query parameter (null when empty). */
  function GetUserId(launch: Option<LaunchParams>, search: string): (r: JsValue)
    ensures r.Null? || r.Num? || r.Str?
    ensures launch.Some? ==> (r.Num? <==> launch.value.userId.Some? && launch.value.userId.value != 0)
    ensures launch.Some? && r.Num? ==> r.n == launch.value.userId.value
    ensures launch.None? ==> (r.Str? <==> UrlQuery.Get(search, "vk_user_id").Some? && UrlQuery.Get(search, "vk_user_id").value != "")
    ensures launch.None? && r.Str? ==> Some(r.s) == UrlQuery.Get(search, "vk_user_id")
  {
    if launch.Some? then
      (if launch.value.userId.Some? && launch.value.userId.value != 0 then Num(launch.value.userId.value) else Null)
    else
      var q := UrlQuery.Get(search, "vk_user_id");
      if q.Some? && q.value != "" then Str(q.value) else Null
  }

  // ---------------------------------------------------------------------------
  // Storage

  /** One `{ key, value }` entry of the host's storage reply. */
  datatype KeyValue = KeyValue(key: string, value: string)

  /** `data.keys.reduce((acc, item) => { acc[item.key] = item.value; ... }, {})` */
  function Fold(items: seq<KeyValue>): map<string, string> {
    if items == [] then map[]
    else Fold(items[..|items| - 1])[items[|items| - 1].key := items[|items| - 1].value]
  }

  /** A key is in the folded map exactly when some entry has it, and it maps to
      the value of the last such entry. */
  lemma {:induction false} FoldLastWins(items: seq<KeyValue>, k: string)
    ensures k in Fold(items) <==> exists i :: 0 <= i < |items| && items[i].key == k
    ensures k in Fold(items) ==>
      exists i :: 0 <= i < |items| && items[i] == KeyValue(k, Fold(items)[k]) &&
                  forall j :: i < j < |items| ==> items[j].key != k
  {
    if items != [] {
      var init := items[..|items| - 1];
      var last := |items| - 1;
      FoldLastWins(init, k);
      if items[last].key != k {
        assert forall i :: 0 <= i < |init| ==> init[i] == items[i];
        if k in Fold(items) {
          var i :| 0 <= i < |init| && init[i] == KeyValue(k, Fold(init)[k]) &&
                   forall j :: i < j < |init| ==> init[j].key != k;
          assert items[i] == KeyValue(k, Fold(items)[k]);
        }
      }
    }
  }

  /** storageGet: folds the host's reply into a key to value map. */
  method StorageGet(reply: seq<KeyValue>) returns (acc: map<string, string>)
    ensures acc == Fold(reply)
  {
    acc := map[];
    var i := 0;
    while i < |reply|
      invariant 0 <= i <= |reply|
      invariant acc == Fold(reply[..i])
    {
      assert reply[..i + 1][..i] == reply[..i];
      acc := acc[reply[i].key := reply[i].value];
      i := i + 1;
    }
    assert reply[..i] == reply;
  }

  // ---------------------------------------------------------------------------
  // Story sharing, notifications, payments

  const PngPrefix: string := "data:image/png;base64,"

  /** The story-box background: a data URI stays as it is, a bare base64
      payload is prefixed as a PNG data URI. */
  function StoryBlob(image: string): (blob: string)
    ensures StartsWith(blob, "data:")
    ensures StartsWith(image, "data:") ==> blob == image
    ensures !StartsWith(image, "data:") ==> blob == PngPrefix + image
  {
    if StartsWith(image, "data:") then image
    else
      assert (PngPrefix + image)[..5] == "data:";
      PngPrefix + image
  }

  /** Making a blob of a blob changes nothing. */
  lemma StoryBlobIdempotent(image: string)
    ensures StoryBlob(StoryBlob(image)) == StoryBlob(image)
  {
  }

  /** A story-box request: with the image blob, or the link-only fallback. */
  datatype StoryBox = ImageStory(blob: string, url: string) | LinkStory(url: string)

  datatype StoryOutcome = StoryOutcome(requests: seq<StoryBox>, shared: bool)

  /** shareStory: tries the image story when there is an image, falls back to the
      link-only story when there is none or the host refused it. `imageAccepted`
      and `linkAccepted` are the host's answers. */
  function ShareStory(image: string, context: Option<ShareContext>, imageAccepted: bool, linkAccepted: bool): (r: StoryOutcome)
    ensures r.shared <==> (image != "" && imageAccepted) || linkAccepted
    ensures 1 <= |r.requests| <= 2
    ensures image != "" <==> r.requests[0] == ImageStory(StoryBlob(image), BuildUrl(context))
    ensures |r.requests| == 2 <==> image != "" && !imageAccepted
    ensures r.requests[|r.requests| - 1].url == BuildUrl(context)
  {
    var url := BuildUrl(context);
    if image != "" && imageAccepted then StoryOutcome([ImageStory(StoryBlob(image), url)], true)
    else
      var first := if image != "" then [ImageStory(StoryBlob(image), url)] else [];
      StoryOutcome(first + [LinkStory(url)], linkAccepted)
  }

  /** requestNotifications: true only when the host answers `{ result: true }`;
      None is a request that threw. */
  function RequestNotifications(reply: Option<JsValue>): (r: bool)
    ensures r <==> reply.Some? && Prop(reply.value, "result") == Bool(true)
  {
    reply.Some? && Prop(reply.value, "result") == Bool(true)
  }

  /** purchase: payments are not available on this host. */
  function Purchase(): (r: PurchaseResult)
    ensures !r.success && r.reason == "not_supported"
  {
    PurchaseResult(false, "not_supported")
  }
}
