/** The entry file around its document: the frontmatter fences, the body's white space,
    and the whole-file serializer. */
module EntryFile {
  import opened Json
  import opened EntryDocument
  import opened EntrySplice
  import opened Text

  datatype EntryDraft = EntryDraft(data: Json, body: string)

  /** `yaml` stands between the fences; `close` is the line ending after the closing one. */
  datatype Split =
    | NoFrontmatter(body: string)
    | Fenced(frontmatter: string, yaml: string, close: string, body: string)

  /** The YAML library: a source text to document contents (nothing when it throws), and
      contents back to text. */
  datatype Yaml = Yaml(parse: string -> Option<Option<Node>>, stringify: Option<Node> -> string)

  // ----- the fences -----

  /** The opening `---` and its line break, or 0. */
  function Opening(raw: string): nat {
    if "---\n" <= raw then 4 else if "---\r\n" <= raw then 5 else 0
  }

  /** The length of the line end at `i`: a break, or the end of the text. */
  function LineEnd(text: string, i: nat): Option<nat>
    requires i <= |text|
  {
    if i == |text| then Some(0)
    else if text[i] == '\n' then Some(1)
    else if text[i] == '\r' && i + 1 < |text| && text[i + 1] == '\n' then Some(2)
    else None
  }

  /** `i` past an optional line break. */
  function PastBreak(text: string, i: nat): (q: nat)
    requires i <= |text|
    ensures i <= q <= i + 2 && q <= |text|
  {
    var j := if i < |text| && text[i] == '\r' then i + 1 else i;
    if j < |text| && text[j] == '\n' then j + 1 else j
  }

  predicate DashesAt(text: string, q: nat) {
    q + 3 <= |text| && text[q] == '-' && text[q + 1] == '-' && text[q + 2] == '-'
  }

  /** A closing fence read from `i`: an optional break, three dashes, a line end. */
  predicate FenceAt(text: string, i: nat)
    requires i <= |text|
  {
    var q := PastBreak(text, i);
    DashesAt(text, q) && LineEnd(text, q + 3).Some?
  }

  /** The lazy match: the leftmost place a closing fence can be read from. */
  function FirstFence(text: string, from: nat): (r: Option<nat>)
    requires from <= |text|
    ensures r.Some? ==> from <= r.value <= |text| && FenceAt(text, r.value)
    ensures forall i :: from <= i <= |text| && (r.Some? ==> i < r.value) ==> !FenceAt(text, i)
    decreases |text| - from
  {
    if FenceAt(text, from) then Some(from)
    else if from == |text| then None
    else FirstFence(text, from + 1)
  }

  function SplitEntryFile(raw: string): Split {
    var open := Opening(raw);
    if open == 0 then NoFrontmatter(raw)
    else
      match FirstFence(raw, open)
      case None => NoFrontmatter(raw)
      case Some(e) =>
        var q := PastBreak(raw, e) + 3;
        var c := LineEnd(raw, q).value;
        Fenced(raw[..q], raw[open..e], raw[q..q + c], raw[q + c..])
  }

  function YamlOf(split: Split): string {
    if split.Fenced? then split.yaml else ""
  }

  function CloseOf(split: Split): string {
    if split.Fenced? then split.close else ""
  }

  function FrontmatterOf(split: Split): string {
    if split.Fenced? then split.frontmatter else ""
  }

  // ----- parsing and serializing -----

  function DraftOf(split: Split, yaml: Yaml): Option<EntryDraft> {
    if split.NoFrontmatter? then Some(EntryDraft(EMPTY, Trim(split.body)))
    else
      match yaml.parse(split.yaml)
      case None => None
      case Some(doc) => Some(EntryDraft(OrEmpty(DataOf(doc)), Trim(split.body)))
  }

  /** The raw file as a draft, or nothing when the frontmatter does not parse. */
  function ParseEntryDraft(contents: string, yaml: Yaml): Option<EntryDraft> {
    DraftOf(SplitEntryFile(contents), yaml)
  }

  predicate EndsWith(s: string, tail: string) {
    |tail| <= |s| && s[|s| - |tail|..] == tail
  }

  function AnchorBody(rawBody: string, draftBody: string): string {
    var lead := rawBody[..|rawBody| - |TrimStart(rawBody)|];
    var tail := rawBody[|TrimEnd(rawBody)|..];
    lead + draftBody + if tail != "" && EndsWith(draftBody, tail) then "" else tail
  }

  function Separator(split: Split, bodyText: string): string {
    if CloseOf(split) != "" || bodyText == "" then CloseOf(split) else "\n"
  }

  /** The document to print again, if the splice reports a change. */
  function Rewritten(split: Split, baseline: Json, draft: Json, protected: set<string>, yaml: Yaml,
                     order: KeyOrder): Outcome<Option<Option<Node>>>
    requires Lists(order)
  {
    if JsonEqual(baseline, draft) then Done(None)
    else
      match yaml.parse(YamlOf(split))
      case None => Threw
      case Some(contents) =>
        match Splice(Root(contents), baseline, draft, [], protected, order)
        case Threw => Threw
        case Done(s) => Done(if s.touched then Some(Contents(s.focus)) else None)
  }

  function BodyText(split: Split, baselineBody: string, draftBody: string): string {
    if draftBody != baselineBody then AnchorBody(split.body, draftBody) else split.body
  }

  function BodyOnly(split: Split, bodyText: string): string {
    FrontmatterOf(split) + Separator(split, bodyText) + bodyText
  }

  function BlockAndBody(split: Split, printed: string, bodyText: string): string {
    "---\n" + printed + "---" + (if split.NoFrontmatter? then "\n" else Separator(split, bodyText)) + bodyText
  }

  /** The bytes a write leaves in the file. */
  function Serialized(raw: string, baseline: EntryDraft, draft: EntryDraft, protected: set<string>, yaml: Yaml,
                      order: KeyOrder): Outcome<string>
    requires Lists(order)
  {
    var split := SplitEntryFile(raw);
    var bodyText := BodyText(split, baseline.body, draft.body);
    match Rewritten(split, OrEmpty(baseline.data), OrEmpty(draft.data), protected, yaml, order)
    case Threw => Threw
    case Done(Some(contents)) => Done(BlockAndBody(split, yaml.stringify(contents), bodyText))
    case Done(None) => Done(if draft.body != baseline.body then BodyOnly(split, bodyText) else raw)
  }

  method SerializeEntry(raw: string, baseline: EntryDraft, draft: EntryDraft, protected: set<string>, yaml: Yaml,
                        order: KeyOrder)
    returns (r: Outcome<string>)
    requires Lists(order)
    ensures r == Serialized(raw, baseline, draft, protected, yaml, order)
  {
    var split := SplitEntryFile(raw);
    var baseData, draftData := OrEmpty(baseline.data), OrEmpty(draft.data);
    var doc: Option<Option<Node>> := None;
    if !JsonEqual(baseData, draftData) {
      var parsed := yaml.parse(YamlOf(split));
      if parsed.None? { return Threw; }
      var document := new Document(parsed.value);
      var applied := document.ApplyDraft(baseData, draftData, [], protected, order);
      if applied.Threw? { return Threw; }
      if applied.value { doc := Some(document.contents); }
      SpliceFits(Root(parsed.value), baseData, draftData, [], protected, order);
    }
    var edited := draft.body != baseline.body;
    var bodyText := BodyText(split, baseline.body, draft.body);
    if doc.None? { return Done(if edited then BodyOnly(split, bodyText) else raw); }
    r := Done(BlockAndBody(split, yaml.stringify(doc.value), bodyText));
  }
}
