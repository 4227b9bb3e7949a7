/** The string key of a call edge, and when two edges share it. */
module EdgeKeys {
  const ARROW := "->"

  function EdgeKey(caller: string, callee: string): string {
    caller + ARROW + callee
  }

  /** `text` contains no "->". */
  predicate Clean(text: string) {
    forall i :: 0 <= i < |text| - 1 ==> !(text[i] == '-' && text[i + 1] == '>')
  }

  lemma ArrowAt(caller: string, callee: string)
    ensures var key := EdgeKey(caller, callee);
      && |key| == |caller| + 2 + |callee|
      && key[..|caller|] == caller && key[|caller|] == '-' && key[|caller| + 1] == '>'
      && key[|caller| + 2..] == callee
  {
  }

  /** Two edges share a key exactly if they are the same edge or one caller continues the
      other one past an arrow that the other edge has in its callee. */
  lemma KeysCollideIff(a: string, b: string, c: string, d: string)
    requires |a| <= |c|
    ensures EdgeKey(a, b) == EdgeKey(c, d)
            <==> (a == c && b == d) || exists x: string :: c == EdgeKey(a, x) && b == EdgeKey(x, d)
  {
    var left, right := EdgeKey(a, b), EdgeKey(c, d);
    ArrowAt(a, b);
    ArrowAt(c, d);
    forall x: string | c == EdgeKey(a, x) && b == EdgeKey(x, d) ensures left == right {
      assert a + ARROW + (x + ARROW + d) == (a + ARROW + x) + ARROW + d;
    }
    if left == right {
      assert c[..|a|] == left[..|a|] == a;
      assert right[|c|] == '-' && left[|a| + 1] == '>';
      if |c| == |a| {
        assert a == c && b == d;
      } else {
        assert |c| >= |a| + 2;
        var x := c[|a| + 2..];
        assert c[|a|] == '-' && c[|a| + 1] == '>';
        assert c == EdgeKey(a, x);
        assert b == right[|a| + 2..] == x + ARROW + d;
      }
    }
  }

  lemma ArrowIsNotClean(a: string, x: string)
    ensures !Clean(EdgeKey(a, x))
  {
    ArrowAt(a, x);
    var key := EdgeKey(a, x);
    assert key[|a|] == '-' && key[|a| + 1] == '>';
  }

  /** Between clean callers the key determines the edge. */
  lemma KeyIsInjective(a: string, b: string, c: string, d: string)
    requires Clean(a) && Clean(c) && EdgeKey(a, b) == EdgeKey(c, d)
    ensures a == c && b == d
  {
    forall p: string, x: string ensures !Clean(EdgeKey(p, x)) {
      ArrowIsNotClean(p, x);
    }
    if |a| <= |c| {
      KeysCollideIff(a, b, c, d);
    } else {
      KeysCollideIff(c, d, a, b);
    }
  }

  lemma {:induction false} FirstArrow(text: string) returns (i: nat)
    requires !Clean(text)
    ensures i + 1 < |text| && text[i] == '-' && text[i + 1] == '>' && Clean(text[..i])
  {
    i :| 0 <= i < |text| - 1 && text[i] == '-' && text[i + 1] == '>';
    if !Clean(text[..i]) {
      i := FirstArrow(text[..i]);
      assert text[..i] == text[..|text|][..i];
    }
  }

  /** Every caller with an arrow in it is one half of a collision whose other half is
      clean. */
  lemma UncleanCollides(caller: string, callee: string) returns (a: string, b: string)
    requires !Clean(caller)
    ensures EdgeKey(a, b) == EdgeKey(caller, callee) && a != caller && |a| < |caller| && Clean(a)
  {
    var i := FirstArrow(caller);
    a := caller[..i];
    b := EdgeKey(caller[i + 2..], callee);
    assert caller == a + ARROW + caller[i + 2..];
    assert EdgeKey(a, b) == a + ARROW + (caller[i + 2..] + ARROW + callee) == caller + ARROW + callee;
  }
}
