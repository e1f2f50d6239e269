/** The `BackgroundStyle` enum (QuoteValut/Models/backgroundStyle.swift): a `String` raw-value enum
    with `allCases`, `id` and `title`. The gradient it draws is presentation only. */
module BackgroundStyles {
  import opened Outcomes

  datatype BackgroundStyle = Minimalist | Nature | Vibrant | Monolith {

    /** The raw value: the case name. */
    function RawValue(): (r: string)
      ensures r != [] && forall i :: 0 <= i < |r| ==> IsLower(r[i])
    {
      match this
      case Minimalist => "minimalist"
      case Nature => "nature"
      case Vibrant => "vibrant"
      case Monolith => "monolith"
    }

    /** `Identifiable.id`: the raw value, which identifies the case. */
    function Id(): (r: string)
      ensures FromRawValue(r) == Some(this)
    {
      RawValue()
    }

    /** `rawValue.capitalized`: the raw value with its first letter upper-cased. */
    function Title(): (r: string)
      ensures |r| == |RawValue()| && r != []
      ensures r == [ToUpper(RawValue()[0])] + RawValue()[1..]
    {
      CapitalizedLowerWord(RawValue());
      Capitalized(RawValue())
    }
  }

  /** `BackgroundStyle.allCases`, in declaration order. */
  const AllCases: seq<BackgroundStyle> := [Minimalist, Nature, Vibrant, Monolith]

  /** The failable initializer `BackgroundStyle(rawValue:)`. */
  function FromRawValue(s: string): (r: Option<BackgroundStyle>)
    ensures r.Some? ==> r.value.RawValue() == s
    ensures r.None? ==> forall st: BackgroundStyle :: st.RawValue() != s
  {
    if s == "minimalist" then Some(Minimalist)
    else if s == "nature" then Some(Nature)
    else if s == "vibrant" then Some(Vibrant)
    else if s == "monolith" then Some(Monolith)
    else None
  }

  /** Every style occurs in `allCases` exactly once, at the position of its declaration. */
  lemma AllCasesListsEachStyleOnce(st: BackgroundStyle)
    ensures st in AllCases
    ensures forall i, j :: 0 <= i < j < |AllCases| ==> AllCases[i] != AllCases[j]
    ensures AllCases[0] == Minimalist && AllCases[1] == Nature
    ensures AllCases[2] == Vibrant && AllCases[3] == Monolith
  {
  }

  /** Raw values round-trip: the raw value of a style leads back to that style, so distinct styles
      have distinct raw values. */
  lemma RawValueRoundTrip(st: BackgroundStyle, other: BackgroundStyle)
    ensures FromRawValue(st.RawValue()) == Some(st)
    ensures st != other ==> st.RawValue() != other.RawValue()
  {
  }

  /** The title of `nature` as the settings and design screens show it. */
  lemma NatureTitle()
    ensures Nature.Title() == "Nature"
  {
    var raw := Nature.RawValue();
    assert raw[0] == 'n' && raw[1..] == "ature" && ToUpper('n') == 'N';
  }

  /** A single lower-case word is capitalized by upper-casing its first letter only. */
  lemma CapitalizedLowerWord(w: string)
    requires w != [] && forall i :: 0 <= i < |w| ==> IsLower(w[i])
    ensures Capitalized(w) == [ToUpper(w[0])] + w[1..]
  {
    var r := Capitalized(w);
    forall i | 1 <= i < |w|
      ensures r[i] == w[i]
    {
      assert IsLower(w[i - 1]) && IsLower(w[i]);
    }
  }

  predicate IsLower(c: char) { 'a' <= c <= 'z' }

  predicate IsUpper(c: char) { 'A' <= c <= 'Z' }

  function ToUpper(c: char): (r: char)
    ensures IsLower(c) ==> IsUpper(r)
    ensures !IsLower(c) ==> r == c
  {
    if IsLower(c) then (c as int - 32) as char else c
  }

  function ToLower(c: char): (r: char)
    ensures IsUpper(c) ==> IsLower(r)
    ensures !IsUpper(c) ==> r == c
  {
    if IsUpper(c) then (c as int + 32) as char else c
  }

  /** Foundation's `capitalized` on ASCII text: the first letter of every space-separated word is
      upper-cased and every other letter lower-cased. */
  function Capitalized(s: string): (r: string)
    ensures |r| == |s|
    ensures forall i :: 0 <= i < |s| ==>
      r[i] == if i == 0 || s[i - 1] == ' ' then ToUpper(s[i]) else ToLower(s[i])
  {
    CapitalizeFrom(s, true)
  }

  /** `Capitalized` of `s` where `atWordStart` says whether a word begins at `s[0]`. */
  function {:induction false} CapitalizeFrom(s: string, atWordStart: bool): (r: string)
    ensures |r| == |s|
    ensures forall i :: 0 <= i < |s| ==>
      r[i] == if (if i == 0 then atWordStart else s[i - 1] == ' ') then ToUpper(s[i]) else ToLower(s[i])
    decreases |s|
  {
    if s == [] then []
    else
      var head := if atWordStart then ToUpper(s[0]) else ToLower(s[0]);
      var tail := CapitalizeFrom(s[1..], s[0] == ' ');
      assert forall i :: 1 <= i < |s| ==> ([head] + tail)[i] == tail[i - 1] && s[1..][i - 1] == s[i];
      [head] + tail
  }
}
