/**
 Node IDs and the case conversion applied to them.
 */
module NodeIds {
  import opened Options
  import opened MessageText

  function LowerChar(c: char): char {
    if 'A' <= c <= 'Z' then c - 'A' + 'a' else c
  }

  /** Lower case of ASCII letters, which is all a node ID can hold. */
  function Lower(s: string): (r: string)
    ensures |r| == |s| && forall i | 0 <= i < |s| :: r[i] == LowerChar(s[i])
  {
    seq(|s|, i requires 0 <= i < |s| => LowerChar(s[i]))
  }

  predicate IsHex(c: char) {
    '0' <= c <= '9' || 'a' <= c <= 'f'
  }

  /** An exclamation mark and eight lower-case hexadecimal digits. */
  predicate IsNodeId(s: string) {
    |s| == 9 && s[0] == '!' && forall i | 1 <= i < 9 :: IsHex(s[i])
  }

  const BROADCAST := "!ffffffff"

  /** A node ID with or without its mark, in either case; None is the error. */
  function NormalizeNodeId(u: Unicode, value: string): Option<string> {
    var lowered := Lower(Strip(u, value));
    var digits := if lowered != [] && lowered[0] == '!' then lowered[1..] else lowered;
    if |digits| != 8 || exists c | c in digits :: !IsHex(c) then None
    else if "!" + digits == BROADCAST then None
    else Some("!" + digits)
  }

  /** Visible ASCII characters are not white space. */
  predicate AsciiIsVisible(u: Unicode) {
    forall c | '!' <= c <= '~' :: !u.space(c)
  }

  /** The result is a node ID other than the broadcast address, and normalising it again changes nothing. */
  lemma NormalizedIsNodeId(u: Unicode, value: string)
    requires AsciiIsVisible(u) && NormalizeNodeId(u, value).Some?
    ensures var id := NormalizeNodeId(u, value).value;
            IsNodeId(id) && id != BROADCAST && NormalizeNodeId(u, id) == Some(id)
  {
    var id := NormalizeNodeId(u, value).value;
    forall i | 1 <= i < 9 ensures IsHex(id[i]) {
      assert id[1..][i - 1] == id[i] && id[i] in id[1..];
    }
    LowerIsIdentity(id);
    NodeIdIsNormal(u, id);
  }

  /** Only the case of a node ID is normalised. */
  lemma NodeIdIsNormal(u: Unicode, id: string)
    requires AsciiIsVisible(u) && IsNodeId(Lower(id)) && Lower(id) != BROADCAST
    ensures NormalizeNodeId(u, id) == Some(Lower(id))
    ensures Lower(Lower(id)) == Lower(id)
  {
    var lowered := Lower(id);
    forall i | 0 <= i < 9 ensures !u.space(id[i]) {
      if i > 0 {
        assert IsHex(lowered[i]);
      }
    }
    StripTrims(u, id);
    assert lowered == "!" + lowered[1..];
    forall c | c in lowered[1..] ensures IsHex(c) {
      var i :| 0 <= i < 8 && lowered[1..][i] == c;
      assert IsHex(lowered[i + 1]);
    }
  }

  lemma LowerIsIdentity(id: string)
    requires IsNodeId(id)
    ensures Lower(id) == id
  {
    forall i | 0 <= i < |id| ensures Lower(id)[i] == id[i] {
      assert i > 0 ==> IsHex(id[i]);
    }
  }
}
