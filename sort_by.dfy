/** `SortBy`: the sort keys a list can be ordered by, and their names. */
module SortBys {

  datatype SortBy = Priority | InceptionDate | CompletionDate
  {
    /** `Into<String>`: the key's name, one of the three names `From<String>` accepts. */
    function ToString(): (r: string)
      ensures IsSortByName(r)
    {
      match this
      case Priority => "Priority"
      case InceptionDate => "Inception date"
      case CompletionDate => "Completion date"
    }

    /** `Display`: writes the `Into<String>` name, so it reads back as the same key. */
    function Display(): (r: string)
      ensures IsSortByName(r) && FromString(r) == this
    {
      ToString()
    }
  }

  /** The strings `From<String>` accepts; any other string makes it panic. */
  predicate IsSortByName(s: string)
  {
    s == "Priority" || s == "Inception date" || s == "Completion date"
  }

  /** `From<String>`: the key a name denotes; the inverse of `ToString`. */
  function FromString(input: string): (r: SortBy)
    requires IsSortByName(input)
    ensures r.ToString() == input
  {
    match input
    case "Priority" => Priority
    case "Inception date" => InceptionDate
    case _ => CompletionDate
  }

  /** Reading a key's name gives the key back. */
  lemma FromToString(s: SortBy)
    ensures FromString(s.ToString()) == s
  {
  }

  /** Different keys have different names. */
  lemma ToStringInjective(a: SortBy, b: SortBy)
    ensures a.ToString() == b.ToString() <==> a == b
  {
  }
}
