/** The five daily prayers, in their fixed daily order. */
module PrayerTypes {
  import opened Wrappers
  import opened Text

  datatype PrayerType = Fajr | Dhuhr | Asr | Maghrib | Isha

  /** `PrayerType.allCases`: declaration order, which is the daily order. */
  const AllCases: seq<PrayerType> := [Fajr, Dhuhr, Asr, Maghrib, Isha]

  function RawValue(p: PrayerType): (s: string)
    ensures |s| >= 3
    ensures forall i :: 0 <= i < |s| ==> IsLower(s[i])
  {
    match p
    case Fajr => "fajr"
    case Dhuhr => "dhuhr"
    case Asr => "asr"
    case Maghrib => "maghrib"
    case Isha => "isha"
  }

  /** `PrayerType(rawValue:)`: the case whose raw value is `s`, if any. */
  function FromRawValue(s: string): (r: Option<PrayerType>)
    ensures r.Some? ==> RawValue(r.value) == s
    ensures r.None? ==> forall p :: RawValue(p) != s
  {
    if s == "fajr" then Some(Fajr)
    else if s == "dhuhr" then Some(Dhuhr)
    else if s == "asr" then Some(Asr)
    else if s == "maghrib" then Some(Maghrib)
    else if s == "isha" then Some(Isha)
    else None
  }

  /** Position in the daily order. */
  function Index(p: PrayerType): (i: nat)
    ensures i < |AllCases| && AllCases[i] == p
  {
    match p
    case Fajr => 0
    case Dhuhr => 1
    case Asr => 2
    case Maghrib => 3
    case Isha => 4
  }

  function DisplayName(p: PrayerType): string {
    Capitalized(RawValue(p))
  }

  function Icon(p: PrayerType): string {
    match p
    case Fajr => "sunrise"
    case Dhuhr => "sun.max"
    case Asr => "sun.and.horizon"
    case Maghrib => "sunset"
    case Isha => "moon.stars"
  }

  /** Exactly five cases, each listed once, every case listed. */
  lemma AllCasesComplete()
    ensures |AllCases| == 5
    ensures forall i, j :: 0 <= i < j < |AllCases| ==> AllCases[i] != AllCases[j]
    ensures forall p: PrayerType :: p in AllCases
  {
    forall p: PrayerType ensures p in AllCases {
      assert AllCases[Index(p)] == p;
    }
  }

  /** The raw value is told apart by its first letter alone, so raw values are
      pairwise distinct and `PrayerType(rawValue:)` inverts `rawValue`. */
  lemma RawValueFirstLetterDistinct(p: PrayerType, q: PrayerType)
    ensures RawValue(p)[0] == RawValue(q)[0] ==> p == q
    ensures FromRawValue(RawValue(p)) == Some(p)
  {
  }

  /** The display name is the raw value with its first letter capitalised. */
  lemma DisplayNameCapitalizesRaw(p: PrayerType)
    ensures DisplayName(p) == [Upper(RawValue(p)[0])] + RawValue(p)[1..]
    ensures |DisplayName(p)| == |RawValue(p)|
  {
    CapitalizedWord(RawValue(p));
  }

  /** Every icon name is non-empty. */
  lemma IconNonEmpty(p: PrayerType)
    ensures |Icon(p)| > 0
  {
  }
}
