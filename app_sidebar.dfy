/** The sidebar's avatar initials and its sign-out action. */
module AppSidebar {
  import opened Wrappers
  import opened Types
  import opened JsBuiltins
  import AuthStore
  import AuthRoute

  /** `n[0]` for one piece of the name, as `join` renders it: the empty
      piece has no first character and `undefined` joins as "". */
  function FirstChar(part: string): (c: string)
    ensures |c| <= 1
  {
    if part == "" then "" else [part[0]]
  }

  /** `.map((n) => n[0]).join('')`: one character per non-empty piece,
      nothing for an empty one. */
  function FirstChars(parts: seq<string>): (chars: string)
    ensures |chars| <= |parts|
    ensures (forall i :: 0 <= i < |parts| ==> parts[i] != "") ==> |chars| == |parts|
  {
    if parts == [] then "" else FirstChar(parts[0]) + FirstChars(parts[1..])
  }

  /** `user?.name?.split(' ').map((n) => n[0]).join('').toUpperCase().slice(0, 2)`:
      absent without a user, at most two characters otherwise. */
  function Initials(user: Option<User>): (initials: Option<string>)
    ensures user.None? <==> initials.None?
    ensures initials.Some? ==> |initials.value| <= 2
  {
    match user
    case None => None
    case Some(u) => Some(Slice(Upper(FirstChars(Split(u.name))), 0, 2))
  }

  /** The reference reading of "the first letters of the words": the
      characters that are not spaces and come first or right after a
      space, in order. `afterSpace` says whether the previous character
      was a space (or there was none). */
  function WordStarts(s: string, afterSpace: bool): string
  {
    if s == [] then ""
    else if s[0] == ' ' then WordStarts(s[1..], true)
    else (if afterSpace then [s[0]] else "") + WordStarts(s[1..], false)
  }

  /** Taking the first character of every piece between spaces gives
      the word starts; the empty pieces that doubled, leading or trailing
      spaces produce give nothing. The second half is about the pieces
      after the first one, which start after a space. */
  lemma {:induction false} FirstCharsOfSplit(s: string)
    ensures FirstChars(Split(s)) == WordStarts(s, true)
    ensures FirstChars(Split(s)[1..]) == WordStarts(s, false)
  {
    if s != [] {
      FirstCharsOfSplit(s[1..]);
      var rest := Split(s[1..]);
      if s[0] == ' ' {
        assert Split(s) == [""] + rest;
        assert Split(s)[1..] == rest;
        assert FirstChars(Split(s)) == "" + FirstChars(rest);
      } else {
        var parts := Split(s);
        assert parts == [[s[0]] + rest[0]] + rest[1..];
        assert parts[1..] == rest[1..];
        assert FirstChar(parts[0]) == [s[0]];
      }
    }
  }

  /** The initials are the first two word starts of the name, upper-cased. */
  lemma InitialsAreWordStarts(u: User)
    ensures var w := Upper(WordStarts(u.name, true));
      Initials(Some(u)) == Some(if |w| <= 2 then w else w[..2])
  {
    FirstCharsOfSplit(u.name);
    var w := Upper(WordStarts(u.name, true));
    assert Upper(FirstChars(Split(u.name))) == w;
    if |w| > 2 {
      assert Slice(w, 0, 2) == w[0..2];
    } else if |w| > 0 {
      assert Slice(w, 0, 2) == w[0..|w|] == w;
    }
  }

  /** A name with a doubled space: the empty piece between the spaces does
      not take a place among the two initials. */
  lemma DoubledSpaceExample(u: User)
    requires u.name == "a  b"
    ensures Initials(Some(u)) == Some("AB")
  {
    InitialsAreWordStarts(u);
    assert WordStarts("b", true) == "b";
    assert WordStarts("  b", false) == WordStarts(" b", true) == WordStarts("b", true);
    assert WordStarts(u.name, true) == "a" + WordStarts("  b", false) == "ab";
    assert Upper("ab") == "AB";
  }

  /** `handleLogout`: the session is cleared first, and only then does the
      sidebar navigate to `/login`, so the navigation already sees a
      signed-out store: the guarded area would send it back to `/login`. */
  method HandleLogout(store: AuthStore.Store, decode: AuthStore.Decoder, nowMs: int) returns (to: string)
    modifies store
    ensures to == AuthRoute.LoginPath
    ensures store.token == None && store.user == None
    ensures store.storage == old(store.storage) - {AuthStore.StorageKey}
    ensures AuthStore.StorageKey !in store.storage
    ensures !store.IsLogged(decode, nowMs)
    ensures forall href :: AuthRoute.BeforeLoad(store, href, decode, nowMs) == AuthRoute.Redirect(to, href)
  {
    store.Logout();
    to := AuthRoute.LoginPath;
  }
}
