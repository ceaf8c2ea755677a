/** The three language tags the UI offers. Every per-language table of the
    source (editor templates, Monaco ids, execution-service configuration) is
    a record keyed by these strings; a lookup of any other string misses. */
module Languages {
  import opened Text

  datatype Language = Python | Java | Cpp

  /** The tag string the language selector produces for a language. */
  function Tag(l: Language): string {
    match l
    case Python => "python"
    case Java => "java"
    case Cpp => "cpp"
  }

  /** Record lookup by tag: which language, if any, a tag names. */
  function Parse(tag: string): (r: Option<Language>)
    ensures r.Some? ==> Tag(r.value) == tag
    ensures r.None? ==> forall l :: Tag(l) != tag
  {
    if tag == "python" then Some(Python)
    else if tag == "java" then Some(Java)
    else if tag == "cpp" then Some(Cpp)
    else None
  }

  predicate Supported(tag: string) {
    Parse(tag).Some?
  }

  lemma ParseTag(l: Language)
    ensures Parse(Tag(l)) == Some(l)
  {
  }
}
