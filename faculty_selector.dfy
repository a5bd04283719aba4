/**
  The faculty drop-down of the feedback form: a fixed list of 21 faculties,
  a case-insensitive search box that narrows it, the reset of the search
  text when the drop-down closes, and the result counter under the box.
*/
module FacultySelector {
  import opened Wrappers
  import opened Seqs
  import opened Text

  /** The faculties offered, in display order. */
  const Facultades: seq<string> := [
    "Facultad de Artes",
    "Facultad de Arquitectura y Urbanismo",
    "Ciencias",
    "Ciencias Administrativas",
    "Ciencias Agrícolas",
    "Ciencias Biológicas",
    "Ciencias de la Discapacidad, atención prehospitalaria",
    "Ciencias Económicas",
    "Ciencias Medicas",
    "Ciencias Psicologicas",
    "Ciencias Químicas",
    "Ciencias Sociales y Humanas",
    "Comunicacion Social",
    "Cultura Fisica",
    "Ingenieria y Ciencias Aplicadas",
    "Filosofia, Letras y Ciencias de la Educacion",
    "Ingenieria en Geologia, Minas, Petroleo y Ambiental",
    "Ingenieria Quimica",
    "Jurisprudencia, Ciencias Politicas y Sociales",
    "Medicina Veterinaria y Zootecnia",
    "Odontologia"
  ]

  /** The per-faculty search test: the lower-cased name contains the lower-cased term. */
  predicate NameMatches(term: string, facultad: string)
  {
    Contains(LowerStr(facultad), LowerStr(term))
  }

  /** Every name contains the empty term. */
  lemma EmptyTermMatchesAll()
    ensures forall f :: NameMatches("", f)
  {
    forall f ensures NameMatches("", f) {
      ContainsEmpty(LowerStr(f));
    }
  }

  /**
    `filteredFacultades`: the whole list for the empty term, otherwise the
    faculties whose name matches, in list order.
  */
  function FilterFacultades(term: string): (r: seq<string>)
    ensures term == "" ==> r == Facultades
    ensures IsSubsequence(r, Facultades)
    ensures forall f :: f in r <==> f in Facultades && NameMatches(term, f)
  {
    EmptyTermMatchesAll();
    SubsequenceReflexive(Facultades);
    if term == "" then Facultades else Filter(Facultades, f => NameMatches(term, f))
  }

  /** The empty-term shortcut gives what the filter itself would give. */
  lemma ShortcutAgreesWithFilter()
    ensures FilterFacultades("") == Filter(Facultades, f => NameMatches("", f))
  {
    EmptyTermMatchesAll();
    FilterKeepsAll(Facultades, f => NameMatches("", f));
  }

  /** Terms that differ only in letter case select the same faculties. */
  lemma FilterIgnoresCase(t1: string, t2: string)
    requires LowerStr(t1) == LowerStr(t2)
    ensures FilterFacultades(t1) == FilterFacultades(t2)
  {
    assert |t1| == |LowerStr(t1)| == |t2|;
    if t1 != "" {
      FilterExtensional(Facultades, f => NameMatches(t1, f), f => NameMatches(t2, f));
    }
  }

  /** Typing more narrows the list: a term containing another selects a sub-list of its faculties. */
  lemma FilterNarrows(t1: string, t2: string)
    requires Contains(LowerStr(t2), LowerStr(t1))
    ensures IsSubsequence(FilterFacultades(t2), FilterFacultades(t1))
  {
    if t2 == "" {
      assert |LowerStr(t1)| <= |LowerStr(t2)| == 0;
      assert t1 == "";
      SubsequenceReflexive(Facultades);
    } else if t1 != "" {
      forall f | NameMatches(t2, f) ensures NameMatches(t1, f) {
        ContainsTransitive(LowerStr(f), LowerStr(t2), LowerStr(t1));
      }
      FilterMonotone(Facultades, f => NameMatches(t2, f), f => NameMatches(t1, f));
    }
  }

  // ---------------------------------------------------------------------
  // The result counter
  // ---------------------------------------------------------------------

  function DigitChar(d: int): (c: char)
    requires 0 <= d < 10
    ensures '0' <= c <= '9'
  {
    ('0' as int + d) as char
  }

  /** The decimal rendering of a count, as string interpolation writes it. */
  function NatToString(n: nat): (s: string)
    ensures |s| >= 1
    ensures forall i :: 0 <= i < |s| ==> '0' <= s[i] <= '9'
  {
    if n < 10 then [DigitChar(n)] else NatToString(n / 10) + [DigitChar(n % 10)]
  }

  /** Reads a string of decimal digits back as a number. */
  function ParseDecimal(s: string): nat
    requires forall i :: 0 <= i < |s| ==> '0' <= s[i] <= '9'
  {
    if s == [] then 0 else ParseDecimal(s[..|s| - 1]) * 10 + (s[|s| - 1] as int - '0' as int)
  }

  /** The rendering is faithful: reading it back gives the count. */
  lemma {:induction false} NatToStringRoundTrip(n: nat)
    ensures ParseDecimal(NatToString(n)) == n
  {
    var s := NatToString(n);
    if n >= 10 {
      NatToStringRoundTrip(n / 10);
      assert s[..|s| - 1] == NatToString(n / 10);
    }
  }

  /**
    The counter text: "facultad" and "encontrada" take their plural endings
    unless the count is one; zero is plural too.
  */
  function CountLabel(n: nat): (r: string)
    ensures n == 1 ==> r == "1 facultad encontrada"
    ensures n != 1 ==> r == NatToString(n) + " facultades encontradas"
  {
    NatToString(n) + " facultad" + (if n != 1 then "es" else "") + " encontrada" + (if n != 1 then "s" else "")
  }

  /** The counter is shown only while a search term is typed, and counts the filtered list. */
  function Counter(term: string): (r: Option<string>)
    ensures r.None? <==> term == ""
    ensures r.Some? ==> r.value == CountLabel(|FilterFacultades(term)|)
  {
    if term == "" then None else Some(CountLabel(|FilterFacultades(term)|))
  }

  // ---------------------------------------------------------------------
  // The component's state
  // ---------------------------------------------------------------------

  class Selector {
    var searchTerm: string
    var isOpen: bool

    /** Closed, with an empty search box. */
    constructor ()
      ensures searchTerm == "" && !isOpen
    {
      searchTerm := "";
      isOpen := false;
    }

    /** The search box's change handler. */
    method SetSearchTerm(term: string)
      modifies this
      ensures searchTerm == term && isOpen == old(isOpen)
    {
      searchTerm := term;
    }

    /** `handleOpenChange`: records the new state; closing also clears the search term. */
    method HandleOpenChange(open: bool)
      modifies this
      ensures isOpen == open
      ensures !open ==> searchTerm == ""
      ensures open ==> searchTerm == old(searchTerm)
    {
      isOpen := open;
      if !open {
        searchTerm := "";
      }
    }

    /** The list currently offered. */
    method Visible() returns (r: seq<string>)
      ensures r == FilterFacultades(searchTerm)
    {
      r := FilterFacultades(searchTerm);
    }
  }

  /** After the drop-down closes, reopening it offers the whole list again. */
  method CloseThenReopenShowsAll(s: Selector) returns (r: seq<string>)
    modifies s
    ensures s.isOpen && r == Facultades
  {
    s.HandleOpenChange(false);
    s.HandleOpenChange(true);
    r := s.Visible();
  }
}
