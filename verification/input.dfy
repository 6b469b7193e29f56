/** engine/include/engine/input/controller.hpp: the keyboard and mouse state
    the input manager fills in and the game reads. */
module Input {
  datatype Key = W | A | S | D | Q | E | Space | Shift | Escape

  class Controller {
    /** keyState: an unordered_map<Key, bool>; a key never set is absent. */
    var keyState: map<Key, bool>
    var rightClick: bool
    var inMotion: bool
    var dx: int
    var dy: int

    /** The member initialisers (lines 19-25): no key known, no click, no motion. */
    constructor ()
      ensures keyState == map[] && !rightClick && !inMotion && dx == 0 && dy == 0
      ensures forall k :: !IsKeyPressed(k)
    {
      keyState := map[];
      rightClick := false;
      inMotion := false;
      dx := 0;
      dy := 0;
    }

    /** isKeyPressed(key): the key was set, and set to pressed. */
    predicate IsKeyPressed(key: Key)
      reads this
      ensures IsKeyPressed(key) ==> key in keyState
    {
      key in keyState && keyState[key]
    }

    /** setKeyState(key, pressed): `keyState[key] = pressed`. */
    method SetKeyState(key: Key, pressed: bool)
      modifies this
      ensures keyState == old(keyState)[key := pressed]
      ensures rightClick == old(rightClick) && inMotion == old(inMotion) && dx == old(dx) && dy == old(dy)
      ensures IsKeyPressed(key) == pressed
      ensures forall k | k != key :: IsKeyPressed(k) == old(IsKeyPressed(k))
    {
      keyState := keyState[key := pressed];
    }

    /** resetMotion(): the mouse deltas and the motion flag are cleared;
        buttons and keys keep their state. */
    method ResetMotion()
      modifies this
      ensures dx == 0 && dy == 0 && !inMotion
      ensures rightClick == old(rightClick) && keyState == old(keyState)
      ensures forall k :: IsKeyPressed(k) == old(IsKeyPressed(k))
    {
      dx := 0;
      dy := 0;
      inMotion := false;
    }
  }
}
