/**
  The OAuth `state` parameter: the login endpoint packs the user id and an optional path to
  return to into it, and the callback unpacks them again.
 */
module OAuthState {
  import opened Wrappers
  import opened Text

  const UserPrefix := "user_"
  const RedirectPrefix := "redirect_"
  const DefaultRedirectPath := "/dashboard"

  /** `facebook_oauth_login`: `user_<id>`, followed by `|redirect_<path>` when a non-empty path is given. */
  function EncodeState(userId: int, redirectTo: Option<string>): (state: string)
    ensures StartsWith(state, UserPrefix)
    ensures '|' in state <==> redirectTo.Some? && redirectTo.value != ""
  {
    var base := UserPrefix + IntToString(userId);
    UserPartHasNoSeparator(userId);
    assert base[..|UserPrefix|] == UserPrefix;
    if redirectTo.Some? && redirectTo.value != "" then
      var state := base + "|" + RedirectPrefix + redirectTo.value;
      assert state[|base|] == '|';
      assert state[..|UserPrefix|] == UserPrefix;
      state
    else base
  }

  /** The user part holds no separator: a numeral is digits and at most a minus sign. */
  lemma UserPartHasNoSeparator(userId: int)
    ensures '|' !in UserPrefix + IntToString(userId)
  {
    var base := UserPrefix + IntToString(userId);
    forall i | 0 <= i < |base| ensures base[i] != '|' {
      if i >= |UserPrefix| {
        assert base[i] == IntToString(userId)[i - |UserPrefix|];
      }
    }
  }

  /** What the callback reads out of the state: the user id last given, and the path last given. */
  datatype StateFields = StateFields(userId: Option<int>, redirectPath: string)

  /** `int(...)` of a `user_` part raised ValueError, which the callback's handler reports as a failure. */
  datatype StateError = UnparsableUserId(part: string)

  const NoFields := StateFields(None, DefaultRedirectPath)

  /** One part of the state: a `user_` part sets the id, a `redirect_` part the path, any other part is ignored. */
  function ReadPart(acc: StateFields, part: string): (r: Result<StateFields, StateError>)
    ensures r.Success? && !StartsWith(part, UserPrefix) ==> r.value.userId == acc.userId
    ensures !StartsWith(part, UserPrefix) && !StartsWith(part, RedirectPrefix) ==> r == Success(acc)
    ensures r.Failure? <==> StartsWith(part, UserPrefix) && ParseInt(RemoveAll(part, UserPrefix)).None?
  {
    if StartsWith(part, UserPrefix) then
      match ParseInt(RemoveAll(part, UserPrefix))
      case None => Failure(UnparsableUserId(part))
      case Some(id) => Success(acc.(userId := Some(id)))
    else if StartsWith(part, RedirectPrefix) then
      Success(acc.(redirectPath := RemoveAll(part, RedirectPrefix)))
    else
      Success(acc)
  }

  /** The parts read from left to right, later parts overriding earlier ones; the first bad id aborts. */
  function ReadParts(parts: seq<string>): Result<StateFields, StateError> {
    if |parts| == 0 then Success(NoFields)
    else
      match ReadParts(parts[..|parts| - 1])
      case Failure(e) => Failure(e)
      case Success(acc) => ReadPart(acc, parts[|parts| - 1])
  }

  /** The callback's decoding: an absent or empty state leaves the defaults, otherwise its `|`-separated parts are read. */
  function DecodeState(state: Option<string>): Result<StateFields, StateError> {
    if state.None? || state.value == "" then Success(NoFields)
    else ReadParts(Split(state.value, '|'))
  }

  /** `if not user_id`: the callback goes on only with a decoded, non-zero id. */
  predicate IdentifiesUser(r: Result<StateFields, StateError>) {
    r.Success? && r.value.userId.Some? && r.value.userId.value != 0
  }

  /** The callback's loop over the parts of the state, reassigning the id and the path as it goes. */
  method ParseState(state: Option<string>) returns (r: Result<StateFields, StateError>)
    ensures r == DecodeState(state)
  {
    var userId: Option<int> := None;
    var redirectPath := DefaultRedirectPath;
    if state.None? || state.value == "" {
      return Success(StateFields(userId, redirectPath));
    }
    var parts := Split(state.value, '|');
    var k := 0;
    while k < |parts|
      invariant k <= |parts|
      invariant ReadParts(parts[..k]) == Success(StateFields(userId, redirectPath))
    {
      var part := parts[k];
      assert parts[..k + 1][..k] == parts[..k];
      if StartsWith(part, UserPrefix) {
        var id := ParseInt(RemoveAll(part, UserPrefix));
        if id.None? {
          assert ReadParts(parts[..k + 1]) == Failure(UnparsableUserId(part));
          assert ReadParts(parts) == Failure(UnparsableUserId(part)) by {
            FailureSticks(parts, k + 1);
          }
          return Failure(UnparsableUserId(part));
        }
        userId := id;
      } else if StartsWith(part, RedirectPrefix) {
        redirectPath := RemoveAll(part, RedirectPrefix);
      }
      k := k + 1;
    }
    assert parts[..k] == parts;
    r := Success(StateFields(userId, redirectPath));
  }

  /** Once a prefix of the parts fails, the whole decoding fails with the same error. */
  lemma {:induction false} FailureSticks(parts: seq<string>, k: nat)
    requires k <= |parts| && ReadParts(parts[..k]).Failure?
    ensures ReadParts(parts) == ReadParts(parts[..k])
    decreases |parts| - k
  {
    if k < |parts| {
      assert parts[..k + 1][..k] == parts[..k];
      FailureSticks(parts, k + 1);
    } else {
      assert parts[..k] == parts;
    }
  }

  /** A `user_<id>` part sets the id to `id`. */
  lemma UserPartReads(acc: StateFields, userId: int)
    ensures ReadPart(acc, UserPrefix + IntToString(userId)) == Success(acc.(userId := Some(userId)))
  {
    var digits := IntToString(userId);
    var part := UserPrefix + digits;
    assert part[..|UserPrefix|] == UserPrefix;
    LacksFirstChar(digits, UserPrefix);
    RemoveAbsent(digits, UserPrefix);
    assert part[|UserPrefix|..] == digits;
    assert RemoveAll(part, UserPrefix) == digits;
    IntToStringRoundTrip(userId);
  }

  /** A `redirect_<p>` part sets the path to `p`, when `p` holds no further `redirect_`. */
  lemma RedirectPartReads(acc: StateFields, p: string)
    requires !Contains(p, RedirectPrefix)
    ensures ReadPart(acc, RedirectPrefix + p) == Success(acc.(redirectPath := p))
  {
    var part := RedirectPrefix + p;
    assert part[..|RedirectPrefix|] == RedirectPrefix;
    assert part[0] == 'r';
    RemoveAbsent(p, RedirectPrefix);
    assert part[|RedirectPrefix|..] == p;
  }

  /** Reading one part is reading it from the defaults. */
  lemma ReadOnePart(a: string)
    ensures ReadParts([a]) == ReadPart(NoFields, a)
  {
    assert [a][..0] == [];
  }

  /** Reading two parts is reading the first, then the second. */
  lemma ReadTwoParts(a: string, b: string)
    ensures ReadParts([a, b]) == (match ReadPart(NoFields, a)
      case Failure(e) => Failure(e)
      case Success(acc) => ReadPart(acc, b))
  {
    assert [a, b][..1] == [a];
    ReadOnePart(a);
  }

  /**
    Round trip: the callback reads back the id and the path the login packed, provided the path
    holds neither `|` (the part separator) nor `redirect_` (which `replace` removes everywhere).
    Without a path the callback falls back to `/dashboard`.
   */
  lemma StateRoundTrip(userId: int, redirectTo: Option<string>)
    requires redirectTo.Some? ==> '|' !in redirectTo.value && !Contains(redirectTo.value, RedirectPrefix)
    ensures DecodeState(Some(EncodeState(userId, redirectTo))) ==
      Success(StateFields(Some(userId),
        if redirectTo.Some? && redirectTo.value != "" then redirectTo.value else DefaultRedirectPath))
  {
    var base := UserPrefix + IntToString(userId);
    UserPartHasNoSeparator(userId);
    UserPartReads(NoFields, userId);
    var first := StateFields(Some(userId), DefaultRedirectPath);
    if redirectTo.Some? && redirectTo.value != "" {
      var p := redirectTo.value;
      var part := RedirectPrefix + p;
      assert '|' !in part by {
        forall i | 0 <= i < |part| ensures part[i] != '|' {
          if i >= |RedirectPrefix| {
            assert part[i] == p[i - |RedirectPrefix|];
          }
        }
      }
      SplitAtFirst(base, '|', part);
      assert EncodeState(userId, redirectTo) == base + ['|'] + part;
      assert Split(EncodeState(userId, redirectTo), '|') == [base, part];
      ReadTwoParts(base, part);
      RedirectPartReads(first, p);
    } else {
      assert EncodeState(userId, redirectTo) == base;
      assert Split(base, '|') == [base];
      ReadOnePart(base);
    }
  }

  /** The state of a login with a non-empty path, as its two halves. */
  lemma EncodeWithPath(userId: int, p: string)
    requires p != ""
    ensures EncodeState(userId, Some(p)) == (UserPrefix + IntToString(userId)) + ['|'] + (RedirectPrefix + p)
  {
  }

  /** A `redirect_` part with a path free of separators holds no separator. */
  lemma RedirectPartHasNoSeparator(q: string)
    requires '|' !in q
    ensures '|' !in RedirectPrefix + q
  {
    var part := RedirectPrefix + q;
    forall i | 0 <= i < |part| ensures part[i] != '|' {
      if i >= |RedirectPrefix| {
        assert part[i] == q[i - |RedirectPrefix|];
      }
    }
  }

  /** A path `q|user_<other>` makes the state split into three parts. */
  lemma InjectedPathSplits(userId: int, q: string, other: int)
    requires '|' !in q
    ensures Split(EncodeState(userId, Some(q + "|" + UserPrefix + IntToString(other))), '|') ==
      [UserPrefix + IntToString(userId), RedirectPrefix + q, UserPrefix + IntToString(other)]
  {
    var base := UserPrefix + IntToString(userId);
    var injected := UserPrefix + IntToString(other);
    var p := q + "|" + UserPrefix + IntToString(other);
    var part := RedirectPrefix + q;
    EncodeWithPath(userId, p);
    assert RedirectPrefix + p == part + ['|'] + injected;
    UserPartHasNoSeparator(userId);
    UserPartHasNoSeparator(other);
    RedirectPartHasNoSeparator(q);
    SplitAtFirst(base, '|', part + ['|'] + injected);
    SplitAtFirst(part, '|', injected);
  }

  /** Reading three parts is reading the first two, then the third. */
  lemma ReadThreeParts(a: string, b: string, c: string)
    ensures ReadParts([a, b, c]) == (match ReadParts([a, b])
      case Failure(e) => Failure(e)
      case Success(acc) => ReadPart(acc, c))
  {
    assert [a, b, c][..2] == [a, b];
  }

  /**
    The path is cut at its first `|`: what follows is read as further parts, so a path ending in
    `|user_<other>` replaces the user id the login packed.
   */
  lemma PathSeparatorInjectsParts(userId: int, q: string, other: int)
    requires '|' !in q && !Contains(q, RedirectPrefix)
    ensures DecodeState(Some(EncodeState(userId, Some(q + "|" + UserPrefix + IntToString(other))))) ==
      Success(StateFields(Some(other), q))
  {
    var base := UserPrefix + IntToString(userId);
    var part := RedirectPrefix + q;
    var injected := UserPrefix + IntToString(other);
    InjectedPathSplits(userId, q, other);
    ReadThreeParts(base, part, injected);
    ReadTwoParts(base, part);
    UserPartReads(NoFields, userId);
    RedirectPartReads(StateFields(Some(userId), DefaultRedirectPath), q);
    UserPartReads(StateFields(Some(userId), q), other);
  }

  /** A `redirect_` inside the path is removed along with the prefix. */
  lemma RedirectPrefixInPathIsLost()
    ensures DecodeState(Some(EncodeState(5, Some("/redirect_x")))) == Success(StateFields(Some(5), "/x"))
  {
    var base := UserPrefix + IntToString(5);
    var part := RedirectPrefix + "/redirect_x";
    EncodeWithPath(5, "/redirect_x");
    UserPartHasNoSeparator(5);
    RedirectPartHasNoSeparator("/redirect_x");
    SplitAtFirst(base, '|', part);
    assert Split(part, '|') == [part];
    ReadTwoParts(base, part);
    UserPartReads(NoFields, 5);
    RedirectInsidePathRemoved();
  }

  /** The arithmetic of the example above: `"redirect_/redirect_x".replace("redirect_", "")` is `"/x"`. */
  lemma RedirectInsidePathRemoved()
    ensures ReadPart(StateFields(Some(5), DefaultRedirectPath), RedirectPrefix + "/redirect_x")
      == Success(StateFields(Some(5), "/x"))
  {
    var part := RedirectPrefix + "/redirect_x";
    assert part[..|RedirectPrefix|] == RedirectPrefix;
    assert part[0] == 'r';
    assert part[|RedirectPrefix|..] == "/redirect_x";
    InnerPrefixRemoved();
  }

  /** `"/redirect_x".replace("redirect_", "")` is `"/x"`: the occurrence after the slash is removed too. */
  lemma InnerPrefixRemoved()
    ensures RemoveAll("/redirect_x", RedirectPrefix) == "/x"
  {
    var s := "/redirect_x";
    var t := "redirect_x";
    assert s[0] != RedirectPrefix[0];
    assert s[..|RedirectPrefix|] != RedirectPrefix;
    assert s[1..] == t;
    assert t[..|RedirectPrefix|] == RedirectPrefix;
    assert t[|RedirectPrefix|..] == "x";
    assert RemoveAll("x", RedirectPrefix) == "x";
  }

  /**
    The states that reach the callback without naming a user are turned away: no state, an empty
    one, a login state carrying only a redirect path, and the state packed for user id 0.
   */
  lemma UnidentifiedStatesRejected(path: string)
    requires '|' !in path && !Contains(path, RedirectPrefix)
    ensures !IdentifiesUser(DecodeState(None)) && !IdentifiesUser(DecodeState(Some("")))
    ensures DecodeState(Some(RedirectPrefix + path)) == Success(StateFields(None, path))
    ensures DecodeState(Some(EncodeState(0, Some(path)))).Success?
    ensures !IdentifiesUser(DecodeState(Some(RedirectPrefix + path)))
    ensures !IdentifiesUser(DecodeState(Some(EncodeState(0, Some(path)))))
  {
    var part := RedirectPrefix + path;
    RedirectPartHasNoSeparator(path);
    assert Split(part, '|') == [part];
    ReadOnePart(part);
    RedirectPartReads(NoFields, path);
    StateRoundTrip(0, Some(path));
  }

  /** Every id the callback accepts is one that some login could have packed: `user_<id>` decodes to it. */
  lemma AcceptedIdsAreEncodable(userId: int)
    requires userId != 0
    ensures IdentifiesUser(DecodeState(Some(EncodeState(userId, None))))
    ensures DecodeState(Some(EncodeState(userId, None))).value.userId == Some(userId)
  {
    StateRoundTrip(userId, None);
  }
}
