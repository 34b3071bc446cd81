/** The two string library calls the statement builders rely on: `sep.join(parts)` and
    `s.rstrip(chars)`. */
module Text {

  /** `sep.join(parts)`: the parts with `sep` between neighbours. */
  function Join(parts: seq<string>, sep: string): string
  {
    if |parts| == 0 then ""
    else if |parts| == 1 then parts[0]
    else Join(parts[..|parts| - 1], sep) + sep + parts[|parts| - 1]
  }

  /** What a loop doing `acc += part + sep` for every part appends. */
  function Terminated(parts: seq<string>, sep: string): string
  {
    if parts == [] then "" else Terminated(parts[..|parts| - 1], sep) + parts[|parts| - 1] + sep
  }

  /** `s.rstrip(chars)`: drops trailing characters as long as they belong to `chars`. */
  function RStrip(s: string, chars: set<char>): (r: string)
    ensures |r| <= |s| && r == s[..|r|]
    ensures r == [] || r[|r| - 1] !in chars
    ensures forall i | |r| <= i < |s| :: s[i] in chars
  {
    if |s| > 0 && s[|s| - 1] in chars then RStrip(s[..|s| - 1], chars) else s
  }

  /** Terminating every part equals joining them and terminating once. */
  lemma {:induction false} TerminatedIsJoinPlusSep(parts: seq<string>, sep: string)
    requires parts != []
    ensures Terminated(parts, sep) == Join(parts, sep) + sep
  {
    if |parts| > 1 {
      var init := parts[..|parts| - 1];
      TerminatedIsJoinPlusSep(init, sep);
      assert Terminated(parts, sep) == Join(init, sep) + sep + parts[|parts| - 1] + sep;
    }
  }

  /** A non-empty last part supplies the last character of the joined string. */
  lemma JoinEndsWithLastPart(parts: seq<string>, sep: string)
    requires parts != []
    ensures var j := Join(parts, sep); var p := parts[|parts| - 1];
      |j| >= |p| && j[|j| - |p|..] == p
  {
  }

  /** rstrip removes exactly a suffix made of stripped characters when the text before it
      does not end in one. */
  lemma {:induction false} RStripRemovesSuffix(x: string, suffix: string, chars: set<char>)
    requires forall i | 0 <= i < |suffix| :: suffix[i] in chars
    requires x == [] || x[|x| - 1] !in chars
    ensures RStrip(x + suffix, chars) == x
  {
    if suffix != [] {
      var shorter := suffix[..|suffix| - 1];
      assert (x + suffix)[..|x + suffix| - 1] == x + shorter;
      RStripRemovesSuffix(x, shorter, chars);
    } else {
      assert x + suffix == x;
    }
  }
}
