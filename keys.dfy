/**
 * The keydown handler: `/` focuses the search on the projects view, `?` toggles the help overlay,
 * `g` or `G` arms a chord, and while armed one of `e p d c h r` (in either case) navigates.
 */
module Keys {
  import opened Options
  import opened Text
  import Routing

  datatype Effect = FocusSearch | ToggleHelp | Arm | Navigate(target: Routing.View) | NoEffect

  /** `{ e:'experience', p:'projects', d:'education', c:'contact', h:'home', r:'resume' }[k]`. */
  function ChordTarget(k: string): (r: Option<Routing.View>)
    ensures r.Some? <==> k in {"e", "p", "d", "c", "h", "r"}
  {
    if k == "e" then Some(Routing.Experience)
    else if k == "p" then Some(Routing.Projects)
    else if k == "d" then Some(Routing.Education)
    else if k == "c" then Some(Routing.Contact)
    else if k == "h" then Some(Routing.Home)
    else if k == "r" then Some(Routing.Resume)
    else None
  }

  /** What one key press does, given the chord flag and the current `location.hash`. */
  function Dispatch(key: string, armed: bool, hash: string): Effect
  {
    if key == "/" then (if hash == "#projects" then FocusSearch else NoEffect)
    else if key == "?" then ToggleHelp
    else if Lower(key) == "g" then Arm
    else if armed then
      match ChordTarget(Lower(key))
      case Some(v) => Navigate(v)
      case None => NoEffect
    else NoEffect
  }

  /** `/` and `?` are handled before the chord, whatever the flag. */
  lemma SlashAndQuestionFirst(armed: bool, hash: string)
    ensures Dispatch("/", armed, hash) == if hash == "#projects" then FocusSearch else NoEffect
    ensures Dispatch("?", armed, hash) == ToggleHelp
  {
  }

  /** Exactly `g` and `G` arm the chord. */
  lemma ArmKeys(key: string, armed: bool, hash: string)
    ensures Dispatch(key, armed, hash) == Arm <==> key == "g" || key == "G"
  {
    if Lower(key) == "g" {
      assert LowerChar(key[0]) == 'g';
      assert key == [key[0]];
    }
  }

  /** While armed, a key navigates exactly when it is one of the six letters, in either case. */
  lemma ArmedNavigation(key: string, hash: string)
    requires Lower(key) != "g" && key != "/" && key != "?"
    ensures Dispatch(key, true, hash).Navigate? <==> Lower(key) in {"e", "p", "d", "c", "h", "r"}
    ensures Dispatch(key, true, hash).Navigate? ==> Some(Dispatch(key, true, hash).target) == ChordTarget(Lower(key))
    ensures !Dispatch(key, true, hash).Navigate? ==> Dispatch(key, true, hash) == NoEffect
  {
  }

  /** Without the flag no key navigates. */
  lemma UnarmedNeverNavigates(key: string, hash: string)
    ensures !Dispatch(key, false, hash).Navigate?
  {
  }

  /** `G` then `P` goes to the projects view. */
  lemma ChordExample(hash: string)
    ensures Dispatch("G", false, hash) == Arm
    ensures Dispatch("P", true, hash) == Navigate(Routing.Projects)
  {
    assert Lower("G") == "g";
    assert Lower("P") == "p";
  }
}
