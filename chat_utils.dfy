/**
 * The avatar helpers of `client/src/utils/chatUtils.js`: a user's initials and
 * background colour class, both derived from the username alone.
 */
module ChatUtils {
  import opened Wrappers
  import opened Text

  /** `generateUserInitials`: the first two characters, upper-cased. */
  function Initials(username: string): (r: string)
    ensures |r| == if |username| < 2 then |username| else 2
    ensures forall i :: 0 <= i < |r| ==> r[i] == UpperChar(username[i])
  {
    ToUpper(Prefix(username, 2))
  }

  /** The nine classes of `generateUserColor`, in order. */
  const PALETTE: seq<string> := [
    "bg-blue-500", "bg-green-500", "bg-purple-500", "bg-orange-500", "bg-pink-500",
    "bg-red-500", "bg-yellow-500", "bg-indigo-500", "bg-teal-500"]

  /**
   * `charCodeAt(0)` for one character: the UTF-16 code unit, which for a character
   * outside the Basic Multilingual Plane is its high surrogate.
   */
  function CharCode(c: char): (r: nat)
    ensures r < 0x10000
    ensures (c as int) < 0x10000 ==> r == c as int
  {
    if (c as int) < 0x10000 then c as int else 0xD800 + ((c as int) - 0x10000) / 0x400
  }

  /**
   * `generateUserColor`: the palette entry at the first character's code modulo the
   * palette length. For the empty string `charCodeAt(0)` is NaN and the lookup gives
   * `undefined`, modelled as `None`.
   */
  function Color(username: string): (r: Option<string>)
    ensures r.Some? <==> username != ""
    ensures r.Some? ==> r.value in PALETTE
  {
    if username == "" then None else Some(PALETTE[CharCode(username[0]) % |PALETTE|])
  }

  /** The colour depends on the first character only. */
  lemma ColorByFirstChar(a: string, b: string)
    requires a != "" && b != "" && a[0] == b[0]
    ensures Color(a) == Color(b)
    ensures Color(a).Some? && Color(a).value == PALETTE[CharCode(a[0]) % 9]
  {
  }

  /** Upper-casing is idempotent on characters. */
  lemma UpperCharIdempotent(c: char)
    ensures UpperChar(UpperChar(c)) == UpperChar(c)
  {
  }

  /** Initials are already upper-case: taking them again changes nothing. */
  lemma InitialsIdempotent(username: string)
    ensures Initials(Initials(username)) == Initials(username)
  {
    var r := Initials(username);
    forall i | 0 <= i < |r| ensures Initials(r)[i] == r[i] {
      UpperCharIdempotent(username[i]);
    }
  }

  /** "john" gives "JO"; a one-letter name gives a single initial. */
  lemma InitialsExamples()
    ensures Initials("john") == "JO"
    ensures Initials("a") == "A"
    ensures Initials("") == ""
  {
    assert Initials("john")[0] == 'J' && Initials("john")[1] == 'O';
  }
}
