/** The prefectures the report knows by name (cal/types.go). In Go a
    `Prefecture` is a string type with five named constants; here it is a
    closed enumeration, and `Name` gives each constant's string value. */
module Prefectures {

  datatype Prefecture = Hokkaido | Tokyo | Osaka | Yamanashi | Unknown

  /** The string value of each constant. */
  function Name(p: Prefecture): string {
    match p
    case Hokkaido => "北海道"
    case Tokyo => "東京都"
    case Osaka => "大阪府"
    case Yamanashi => "山梨県"
    case Unknown => "不明"
  }

  /** The names that select a prefecture other than `Unknown`. */
  const KnownNames: set<string> := {"北海道", "東京都", "大阪府", "山梨県"}

  /** Map a CSV prefecture field to a prefecture. Total: every string not
      among the four known names falls back to `Unknown`. */
  function PrefFromString(s: string): (p: Prefecture)
    ensures p != Unknown <==> s in KnownNames
    ensures p != Unknown ==> Name(p) == s
  {
    if s == "北海道" then Hokkaido
    else if s == "東京都" then Tokyo
    else if s == "大阪府" then Osaka
    else if s == "山梨県" then Yamanashi
    else Unknown
  }

  /** Distinct constants have distinct names. */
  lemma NameInjective(p: Prefecture, q: Prefecture)
    ensures Name(p) == Name(q) ==> p == q
  {
  }

  /** Mapping a constant's own name gives the constant back; for `Unknown`
      this holds because "不明" is not a known name. */
  lemma PrefFromStringName(p: Prefecture)
    ensures PrefFromString(Name(p)) == p
  {
  }

  /** Mapping is idempotent through `Name`. */
  lemma PrefFromStringIdempotent(s: string)
    ensures PrefFromString(Name(PrefFromString(s))) == PrefFromString(s)
  {
    PrefFromStringName(PrefFromString(s));
  }

  /** Distinct known names give distinct prefectures. */
  lemma PrefFromStringInjective(s: string, t: string)
    requires s in KnownNames && t in KnownNames && s != t
    ensures PrefFromString(s) != PrefFromString(t)
  {
  }

  /** The four known names and their prefectures. */
  lemma PrefFromStringKnown()
    ensures PrefFromString("北海道") == Hokkaido
    ensures PrefFromString("東京都") == Tokyo
    ensures PrefFromString("大阪府") == Osaka
    ensures PrefFromString("山梨県") == Yamanashi
  {
  }

  /** Any other string, the empty one included, is `Unknown`. */
  lemma PrefFromStringOther(s: string)
    requires s !in KnownNames
    ensures PrefFromString(s) == Unknown
    ensures PrefFromString("") == Unknown
  {
  }
}
