/** Normalising an RDF export: export metadata becomes provenance, everything else becomes sorted, unique lines. */
module RdfNormalizer {
  import opened Wrappers
  import opened Sorting

  datatype SourceKind = FullDump | EntityData

  /** What a trimmed line parses to. */
  datatype Parsed = Blank | Statement(subject: Subject, relation: string, target: string) | Unsupported
  datatype Subject = DumpNode | ExportOf(iri: string) | Other(iri: string)
  datatype Category = DumpExport | EntityExport
  datatype Evidence = Evidence(category: Category, relation: string, target: string)
  datatype Normalized = Normalized(rdf: seq<string>, provenance: seq<Evidence>)

  const DUMP_PREDICATES: set<string> := {
    "http://www.w3.org/1999/02/22-rdf-syntax-ns#type",
    "http://creativecommons.org/ns#license",
    "http://schema.org/softwareVersion",
    "http://schema.org/dateModified",
    "http://www.w3.org/2002/07/owl#imports"
  }
  const ENTITY_EXPORT_PREDICATES: set<string> := {
    "http://creativecommons.org/ns#license",
    "http://schema.org/softwareVersion"
  }

  datatype Verdict = Skip | Keep | Record(evidence: Evidence) | Refuse(code: string)

  function Judge(kind: SourceKind, p: Parsed): Verdict {
    match p
    case Blank => Skip
    case Unsupported => Refuse("RDF_NORMALIZATION_UNSUPPORTED_SYNTAX")
    case Statement(subject, relation, target) =>
      if subject.DumpNode? then
        if kind.FullDump? && relation in DUMP_PREDICATES then Record(Evidence(DumpExport, relation, target))
        else Refuse("RDF_NORMALIZATION_UNKNOWN_DUMP_METADATA")
      else if subject.ExportOf? && relation in ENTITY_EXPORT_PREDICATES then
        Record(Evidence(EntityExport, relation, target))
      else Keep
  }

  /**
    What becomes of a line, by its parts: dump metadata is known and belongs in a
    full dump, or is refused; licence and software version of an export are
    recorded; everything else is kept.
   */
  lemma JudgedBy(kind: SourceKind, subject: Subject, relation: string, target: string)
    ensures var verdict := Judge(kind, Statement(subject, relation, target));
      match subject
      case DumpNode =>
        if kind == FullDump
           && (relation == "http://www.w3.org/1999/02/22-rdf-syntax-ns#type"
               || relation == "http://creativecommons.org/ns#license"
               || relation == "http://schema.org/softwareVersion"
               || relation == "http://schema.org/dateModified"
               || relation == "http://www.w3.org/2002/07/owl#imports")
        then verdict == Record(Evidence(DumpExport, relation, target))
        else verdict == Refuse("RDF_NORMALIZATION_UNKNOWN_DUMP_METADATA")
      case ExportOf(_) =>
        if relation == "http://creativecommons.org/ns#license" || relation == "http://schema.org/softwareVersion"
        then verdict == Record(Evidence(EntityExport, relation, target))
        else verdict == Keep
      case Other(_) => verdict == Keep
    ensures Judge(kind, Blank) == Skip
    ensures Judge(kind, Unsupported) == Refuse("RDF_NORMALIZATION_UNSUPPORTED_SYNTAX")
  {}

  /** The lines that carry meaning: statements that are not export metadata. */
  predicate Semantic(p: Parsed) {
    p.Statement? && !p.subject.DumpNode? && !(p.subject.ExportOf? && p.relation in ENTITY_EXPORT_PREDICATES)
  }

  function SemanticLines(parse: string -> Parsed, lines: seq<string>): set<string> {
    set line | line in lines && Semantic(parse(line))
  }

  ghost predicate Accepted(kind: SourceKind, parse: string -> Parsed, lines: seq<string>) {
    forall i :: 0 <= i < |lines| ==> !Judge(kind, parse(lines[i])).Refuse?
  }

  ghost predicate FirstRefused(kind: SourceKind, parse: string -> Parsed, lines: seq<string>, i: nat, code: string)
    requires i < |lines|
  {
    Judge(kind, parse(lines[i])) == Refuse(code) && Accepted(kind, parse, lines[..i])
  }

  lemma SemanticSnoc(parse: string -> Parsed, lines: seq<string>, i: nat, kept: seq<string>)
    requires i < |lines| && Elements(kept) == SemanticLines(parse, lines[..i])
    ensures Semantic(parse(lines[i])) ==> Elements(kept + [lines[i]]) == SemanticLines(parse, lines[..i + 1])
    ensures !Semantic(parse(lines[i])) ==> Elements(kept) == SemanticLines(parse, lines[..i + 1])
  {
    assert lines[..i + 1] == lines[..i] + [lines[i]];
    assert Elements(kept + [lines[i]]) == Elements(kept) + {lines[i]};
  }

  /** `normalizeWikibaseRdf`: refused at the first bad line; otherwise the semantic lines, sorted and each once. */
  method Normalize(kind: SourceKind, parse: string -> Parsed, lines: seq<string>, lt: (string, string) -> bool)
    returns (result: Outcome<Normalized>)
    requires StrictTotal(lt)
    ensures result.Committed? <==> Accepted(kind, parse, lines)
    ensures result.Committed? ==>
      Ascending(result.state.rdf, lt) && Elements(result.state.rdf) == SemanticLines(parse, lines)
    ensures result.Committed? ==>
      forall e :: e in result.state.provenance <==>
        exists i :: 0 <= i < |lines| && Judge(kind, parse(lines[i])) == Record(e)
    ensures result.Aborted? ==> exists i :: 0 <= i < |lines| && FirstRefused(kind, parse, lines, i, result.code)
  {
    var kept: seq<string>, provenance: seq<Evidence> := [], [];
    for i := 0 to |lines|
      invariant forall k :: 0 <= k < i ==> !Judge(kind, parse(lines[k])).Refuse?
      invariant Elements(kept) == SemanticLines(parse, lines[..i])
      invariant forall e :: e in provenance <==> exists k :: 0 <= k < i && Judge(kind, parse(lines[k])) == Record(e)
    {
      SemanticSnoc(parse, lines, i, kept);
      match Judge(kind, parse(lines[i]))
      case Skip =>
      case Keep => kept := kept + [lines[i]];
      case Record(e) => provenance := provenance + [e];
      case Refuse(code) =>
        assert FirstRefused(kind, parse, lines, i, code);
        return Aborted(code);
    }
    assert lines[..|lines|] == lines;
    SortUniqueSorted(kept, lt);
    return Committed(Normalized(SortUnique(kept, lt), provenance));
  }

  /** The specification of the text: ascending, and exactly the semantic lines. */
  ghost predicate NormalForm(text: seq<string>, parse: string -> Parsed, lines: seq<string>,
                             lt: (string, string) -> bool) {
    Ascending(text, lt) && Elements(text) == SemanticLines(parse, lines)
  }

  /**
    A dump and an entity export around the same semantic triples normalise to
    the same text, whatever else they carry.
   */
  lemma SourcesAgree(parse: string -> Parsed, a: seq<string>, b: seq<string>, left: seq<string>, right: seq<string>,
                     lt: (string, string) -> bool)
    requires StrictTotal(lt) && NormalForm(left, parse, a, lt) && NormalForm(right, parse, b, lt)
    ensures left == right <==> SemanticLines(parse, a) == SemanticLines(parse, b)
  {
    if SemanticLines(parse, a) == SemanticLines(parse, b) { AscendingUnique(left, right, lt); }
  }

  /** Normalised text is accepted as either kind of source and is its own normal form. */
  lemma Idempotent(parse: string -> Parsed, lines: seq<string>, text: seq<string>, again: seq<string>, kind: SourceKind,
                   lt: (string, string) -> bool)
    requires StrictTotal(lt) && NormalForm(text, parse, lines, lt)
    ensures Accepted(kind, parse, text)
    ensures forall e, i :: 0 <= i < |text| ==> Judge(kind, parse(text[i])) != Record(e)
    ensures NormalForm(again, parse, text, lt) ==> again == text
  {
    forall line | line in text ensures Semantic(parse(line)) { assert line in Elements(text); }
    assert SemanticLines(parse, text) == Elements(text);
    if NormalForm(again, parse, text, lt) { AscendingUnique(again, text, lt); }
  }
}
