/** Login helpers (XIVE/UI/login/LoginViewModel.swift): reading a URL's query
    parameters, saving the session to `UserDefaults`, composing the Apple user's
    name, and sorting out the server's answer to a login request. */
module Login {
  import opened Wrappers
  import opened Store

  // ---------------------------------------------------------------------------
  // URL.queryParameters

  /** A `URLQueryItem`: a name, and a value that may be absent (`?flag`). */
  datatype QueryItem = QueryItem(name: string, value: Option<string>)

  /** `result[item.name] = item.value`: assigning nil to a dictionary subscript
      removes the key. */
  function Assign(m: map<string, string>, item: QueryItem): (r: map<string, string>)
    ensures item.name in r <==> item.value.Some?
    ensures item.name in r ==> r[item.name] == item.value.value
    ensures forall k :: k != item.name ==> (k in r <==> k in m) && (k in r ==> r[k] == m[k])
  {
    if item.value.Some? then m[item.name := item.value.value] else m - {item.name}
  }

  /** `reduce(into: [:])` over the items, in order. */
  function FoldQuery(items: seq<QueryItem>): (r: map<string, string>)
    ensures forall k :: k in r ==> exists i :: 0 <= i < |items| && items[i].name == k && items[i].value == Some(r[k])
  {
    if items == [] then map[] else Assign(FoldQuery(items[..|items| - 1]), items[|items| - 1])
  }

  /** The index of the last item named `name`. */
  function LastNamed(items: seq<QueryItem>, name: string): (r: Option<nat>)
    ensures r.Some? ==> r.value < |items| && items[r.value].name == name
                        && forall j :: r.value < j < |items| ==> items[j].name != name
    ensures r.None? ==> forall j :: 0 <= j < |items| ==> items[j].name != name
  {
    if items == [] then None
    else if items[|items| - 1].name == name then Some(|items| - 1)
    else LastNamed(items[..|items| - 1], name)
  }

  /** The last item with a name decides: its value when it has one, no entry when
      it has none. */
  lemma {:induction false} FoldQueryLastWins(items: seq<QueryItem>, name: string)
    ensures name in FoldQuery(items) <==>
            LastNamed(items, name).Some? && items[LastNamed(items, name).value].value.Some?
    ensures name in FoldQuery(items) ==>
            FoldQuery(items)[name] == items[LastNamed(items, name).value].value.value
  {
    if items != [] {
      FoldQueryLastWins(items[..|items| - 1], name);
    }
  }

  /** `URL.queryParameters`: `nil` when the URL has no query items. */
  method QueryParameters(queryItems: Option<seq<QueryItem>>) returns (r: Option<map<string, string>>)
    ensures r.None? <==> queryItems.None?
    ensures queryItems.Some? ==> r == Some(FoldQuery(queryItems.value))
  {
    if queryItems.None? {
      return None;
    }
    var items := queryItems.value;
    var result: map<string, string> := map[];
    for i := 0 to |items|
      invariant result == FoldQuery(items[..i])
    {
      var item := items[i];
      if item.value.Some? {
        result := result[item.name := item.value.value];
      } else {
        result := result - {item.name};
      }
      assert items[..i + 1][..i] == items[..i];
    }
    assert items[..|items|] == items;
    return Some(result);
  }

  // ---------------------------------------------------------------------------
  // The Apple user's name

  /** `"\(givenName) \(familyName)"` when both parts are given, else the saved name,
      else the empty string. */
  function AppleFullName(givenName: Option<string>, familyName: Option<string>, savedName: Option<string>)
    : (fullName: string)
    ensures givenName.Some? && familyName.Some? ==>
              |fullName| == |givenName.value| + 1 + |familyName.value|
              && fullName[..|givenName.value|] == givenName.value
              && fullName[|givenName.value|] == ' '
              && fullName[|givenName.value| + 1..] == familyName.value
    ensures !(givenName.Some? && familyName.Some?) ==> fullName == savedName.GetOr("")
  {
    if givenName.Some? && familyName.Some? then givenName.value + " " + familyName.value
    else savedName.GetOr("")
  }

  /** The part before the first space and the part after it. */
  function SplitAtFirstSpace(s: string): (string, string)
  {
    if s == [] then ("", "")
    else if s[0] == ' ' then ("", s[1..])
    else var (a, b) := SplitAtFirstSpace(s[1..]); ([s[0]] + a, b)
  }

  /** A given name without a space can be read back from the composed name, and
      the family name with it. */
  lemma {:induction false} AppleFullNameSplits(givenName: string, familyName: string)
    requires forall i :: 0 <= i < |givenName| ==> givenName[i] != ' '
    ensures SplitAtFirstSpace(AppleFullName(Some(givenName), Some(familyName), None)) == (givenName, familyName)
  {
    var full := AppleFullName(Some(givenName), Some(familyName), None);
    assert full == givenName + " " + familyName;
    if givenName != [] {
      assert full[0] == givenName[0];
      assert full[1..] == AppleFullName(Some(givenName[1..]), Some(familyName), None);
      AppleFullNameSplits(givenName[1..], familyName);
      assert [givenName[0]] + givenName[1..] == givenName;
    } else {
      assert full[1..] == familyName;
    }
  }

  // ---------------------------------------------------------------------------
  // postLoginData

  /** The body of an HTTP answer; its bytes are not inspected here. */
  type Data = seq<bv8>

  datatype LoginResult = Success(data: Data) | Failure(statusCode: Option<int>)

  /** The completion `postLoginData` calls: a transport error fails without a code,
      a status outside 200...299 fails with it, otherwise data succeeds; with no
      data the completion is never called (`None`). */
  function ClassifyLoginReply(transportError: bool, status: Option<int>, data: Option<Data>)
    : (r: Option<LoginResult>)
    ensures transportError ==> r == Some(Failure(None))
    ensures !transportError && status.Some? && !(200 <= status.value <= 299) ==> r == Some(Failure(status))
    ensures r.Some? && r.value.Success? <==>
            !transportError && (status.None? || 200 <= status.value <= 299) && data.Some?
    ensures r.Some? && r.value.Success? ==> r.value.data == data.value
    ensures r.None? <==> !transportError && (status.None? || 200 <= status.value <= 299) && data.None?
  {
    if transportError then Some(Failure(None))
    else if status.Some? && !(200 <= status.value <= 299) then Some(Failure(status))
    else if data.Some? then Some(Success(data.value))
    else None
  }

  /** `json?["isNew"] as? Bool ?? false`. */
  function IsNewUserOf(json: Option<JsonObject>): (isNew: bool)
    ensures isNew <==> json.Some? && "isNew" in json.value && json.value["isNew"] == JBool(true)
  {
    if json.Some? then BoolField(json.value, "isNew").GetOr(false) else false
  }

  // ---------------------------------------------------------------------------
  // The view model's state

  class LoginViewModel {
    var isAuthorized: bool
    var shouldShowOnboarding: bool
    var isNewUser: bool
    /** `UserDefaults.standard` as this object sees and writes it. */
    var defaults: Defaults

    /** `init`, which runs `checkLoginStatus`. */
    constructor (saved: Defaults)
      ensures defaults == saved && !isNewUser && !shouldShowOnboarding
      ensures isAuthorized <==> BoolFor(saved, IsLoggedInKey)
    {
      isAuthorized, shouldShowOnboarding, isNewUser := false, false, false;
      defaults := saved;
      if BoolFor(saved, IsLoggedInKey) {
        shouldShowOnboarding := false;
        isAuthorized := true;
      }
    }

    /** `saveLoginState`: the flag and the login method are always written, the
        name only when there is one. */
    method SaveLoginState(isLoggedIn: bool, name: Option<string>, loginMethod: string)
      modifies this`defaults
      ensures defaults == (if name.Some? then old(defaults)[IsLoggedInKey := BoolValue(isLoggedIn)]
                                                           [UserNameKey := StringValue(name.value)]
                           else old(defaults)[IsLoggedInKey := BoolValue(isLoggedIn)])
                          [LoginMethodKey := StringValue(loginMethod)]
      ensures BoolFor(defaults, IsLoggedInKey) == isLoggedIn
      ensures StringFor(defaults, LoginMethodKey) == Some(loginMethod)
      ensures StringFor(defaults, UserNameKey) == if name.Some? then name else old(StringFor(defaults, UserNameKey))
      ensures forall k :: k !in {IsLoggedInKey, UserNameKey, LoginMethodKey} ==>
                (k in defaults <==> k in old(defaults)) && (k in defaults ==> defaults[k] == old(defaults)[k])
    {
      defaults := defaults[IsLoggedInKey := BoolValue(isLoggedIn)];
      if name.Some? {
        defaults := defaults[UserNameKey := StringValue(name.value)];
      }
      defaults := defaults[LoginMethodKey := StringValue(loginMethod)];
    }

    /** `saveTokens`: each token is written only when present. */
    method SaveTokens(accessToken: Option<string>, refreshToken: Option<string>)
      modifies this`defaults
      ensures StringFor(defaults, AccessTokenKey) ==
                if accessToken.Some? then accessToken else old(StringFor(defaults, AccessTokenKey))
      ensures StringFor(defaults, RefreshTokenKey) ==
                if refreshToken.Some? then refreshToken else old(StringFor(defaults, RefreshTokenKey))
      ensures accessToken.Some? && refreshToken.Some? ==> Tokens(defaults) == Some((accessToken.value, refreshToken.value))
      ensures forall k :: k != AccessTokenKey && k != RefreshTokenKey ==>
                (k in defaults <==> k in old(defaults)) && (k in defaults ==> defaults[k] == old(defaults)[k])
    {
      if accessToken.Some? {
        defaults := defaults[AccessTokenKey := StringValue(accessToken.value)];
      }
      if refreshToken.Some? {
        defaults := defaults[RefreshTokenKey := StringValue(refreshToken.value)];
      }
    }

    /** The `.success` branch of both login completions, given the decoded body
        (`None` when it is not a JSON object). */
    method OnLoginSuccess(json: Option<JsonObject>)
      modifies this`defaults, this`isNewUser, this`isAuthorized
      ensures isAuthorized && isNewUser == IsNewUserOf(json)
      ensures json.Some? && StringField(json.value, "accessToken").Some? ==>
                StringFor(defaults, AccessTokenKey) == StringField(json.value, "accessToken")
      ensures json.Some? && StringField(json.value, "refreshToken").Some? ==>
                StringFor(defaults, RefreshTokenKey) == StringField(json.value, "refreshToken")
      ensures json.None? || StringField(json.value, "accessToken").None? ==>
                StringFor(defaults, AccessTokenKey) == old(StringFor(defaults, AccessTokenKey))
      ensures json.None? || StringField(json.value, "refreshToken").None? ==>
                StringFor(defaults, RefreshTokenKey) == old(StringFor(defaults, RefreshTokenKey))
      ensures forall k :: k != AccessTokenKey && k != RefreshTokenKey ==>
                (k in defaults <==> k in old(defaults)) && (k in defaults ==> defaults[k] == old(defaults)[k])
    {
      var accessToken := if json.Some? then StringField(json.value, "accessToken") else None;
      var refreshToken := if json.Some? then StringField(json.value, "refreshToken") else None;
      SaveTokens(accessToken, refreshToken);
      isNewUser := IsNewUserOf(json);
      isAuthorized := true;
    }

    /** A completed Apple sign-in: the name is composed (falling back to the saved
        one), the session is saved, and the user counts as authorized before the
        server has answered. Returns the parameters posted to `apple-login`. */
    method AppleSignedIn(authCode: string, idToken: string, givenName: Option<string>,
                         familyName: Option<string>, email: Option<string>)
      returns (parameters: map<string, string>)
      modifies this`defaults, this`isAuthorized
      ensures isAuthorized
      ensures var fullName := AppleFullName(givenName, familyName, old(StringFor(defaults, UserNameKey)));
        parameters == map["code" := authCode, "id_token" := idToken, "name" := fullName, "email" := email.GetOr("")]
        && StringFor(defaults, UserNameKey) == Some(fullName)
      ensures BoolFor(defaults, IsLoggedInKey) && StringFor(defaults, LoginMethodKey) == Some("apple")
      ensures forall k :: k !in {IsLoggedInKey, UserNameKey, LoginMethodKey} ==>
                (k in defaults <==> k in old(defaults)) && (k in defaults ==> defaults[k] == old(defaults)[k])
    {
      var fullName := AppleFullName(givenName, familyName, StringFor(defaults, UserNameKey));
      SaveLoginState(true, Some(fullName), "apple");
      parameters := map["code" := authCode, "id_token" := idToken, "name" := fullName, "email" := email.GetOr("")];
      isAuthorized := true;
    }

    /** Kakao's user info arrived: the nickname (or "Kakao User") is saved, and the
        parameters posted to `kakao-login` are returned; authorization waits for
        the server. */
    method KakaoUserFetched(nickname: Option<string>, kakaoAccessToken: string)
      returns (parameters: map<string, string>)
      modifies this`defaults
      ensures parameters == map["accessToken" := kakaoAccessToken]
      ensures StringFor(defaults, UserNameKey) == Some(nickname.GetOr("Kakao User"))
      ensures BoolFor(defaults, IsLoggedInKey) && StringFor(defaults, LoginMethodKey) == Some("kakao")
      ensures forall k :: k !in {IsLoggedInKey, UserNameKey, LoginMethodKey} ==>
                (k in defaults <==> k in old(defaults)) && (k in defaults ==> defaults[k] == old(defaults)[k])
    {
      SaveLoginState(true, Some(nickname.GetOr("Kakao User")), "kakao");
      parameters := map["accessToken" := kakaoAccessToken];
    }
  }
}
