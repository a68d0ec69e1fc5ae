/**
 * The documents view: the search box filters the document list without
 * regard to letter case, a new document is sent with its title and content
 * trimmed, and each card previews at most 150 characters of the content.
 */
module FilesView {
  import opened Wrappers
  import opened Lists
  import Text

  datatype Document = Document(documentId: string, title: string, content: string,
                               lastEditedAt: string, createdBy: string, workspaceId: string)

  /** The search test: the lower-cased title or content includes the lower-cased term. */
  predicate Matches(doc: Document, term: string) {
    Text.Contains(Text.ToLower(doc.title), Text.ToLower(term)) ||
    Text.Contains(Text.ToLower(doc.content), Text.ToLower(term))
  }

  function MatchesTerm(term: string): Document -> bool {
    (d: Document) => Matches(d, term)
  }

  /**
   * `documents?.filter(...) || []`: the matching documents in list order;
   * before the query has data the list is empty.
   */
  function FilteredDocuments(documents: Option<seq<Document>>, term: string): (r: seq<Document>)
    ensures documents.None? ==> r == []
    ensures documents.Some? ==> forall d :: d in r <==> d in documents.value && Matches(d, term)
  {
    if documents.None? then []
    else
      var r := Filter(documents.value, MatchesTerm(term));
      assert forall d :: d in r <==> d in documents.value && Matches(d, term) by {
        forall d ensures d in r <==> d in documents.value && Matches(d, term) {
          if d in r {
            FilterSound(documents.value, MatchesTerm(term), d);
          }
          if d in documents.value && Matches(d, term) {
            FilterKeeps(documents.value, MatchesTerm(term), d);
          }
        }
      }
      r
  }

  /** The filter keeps the documents in their order, each as often as the list has it. */
  lemma FilteredKeepsOrder(documents: seq<Document>, term: string, d: Document)
    ensures Subsequence(FilteredDocuments(Some(documents), term), documents)
    ensures multiset(FilteredDocuments(Some(documents), term))[d] ==
      if Matches(d, term) then multiset(documents)[d] else 0
  {
    FilterSubsequence(documents, MatchesTerm(term));
    FilterMultiset(documents, MatchesTerm(term), d);
  }

  /** An empty search term keeps every document. */
  lemma EmptyTermKeepsAll(documents: seq<Document>)
    ensures FilteredDocuments(Some(documents), []) == documents
  {
    forall k | 0 <= k < |documents| ensures Matches(documents[k], []) {
      Text.ContainsEmpty(Text.ToLower(documents[k].title));
    }
    FilterAll(documents, MatchesTerm([]));
  }

  /** The search ignores the case of the term: searching for its lower-cased form finds the same documents. */
  lemma SearchIgnoresCase(documents: Option<seq<Document>>, term: string)
    ensures FilteredDocuments(documents, Text.ToLower(term)) == FilteredDocuments(documents, term)
  {
    Text.ToLowerIdempotent(term);
    if documents.Some? {
      FilterCongruent(documents.value, MatchesTerm(Text.ToLower(term)), MatchesTerm(term));
    }
  }

  /** A document is found by its own title, whatever case the title is typed in. */
  lemma TitleFindsDocument(documents: seq<Document>, d: Document)
    requires d in documents
    ensures d in FilteredDocuments(Some(documents), d.title)
    ensures d in FilteredDocuments(Some(documents), Text.ToLower(d.title))
  {
    var t := Text.ToLower(d.title);
    assert Text.StartsWith(t, t);
    assert Text.OccursAt(t, t, 0);
    Text.ToLowerIdempotent(d.title);
  }

  // ---------------------------------------------------------------------
  // handleCreateDocument
  // ---------------------------------------------------------------------

  const Placeholder := "Start writing your document here..."

  /** The body `{ title, content }` of a new document. */
  datatype NewDocument = NewDocument(title: string, content: string)

  /**
   * The document a submitted dialog creates: none when the title is blank;
   * otherwise both fields trimmed, and a blank content replaced by the
   * placeholder text.
   */
  function DocumentRequest(title: string, content: string): (r: Option<NewDocument>)
    ensures r.None? <==> Text.Blank(title)
    ensures r.Some? ==> r.value.title == Text.Trim(title) && r.value.title != []
    ensures r.Some? ==> r.value.content == (if Text.Blank(content) then Placeholder else Text.Trim(content))
  {
    Text.TrimEmptyIffBlank(title);
    Text.TrimEmptyIffBlank(content);
    if Text.Trim(title) == [] then None
    else Some(NewDocument(Text.Trim(title), if Text.Trim(content) != [] then Text.Trim(content) else Placeholder))
  }

  /** The placeholder is itself a content that submits unchanged. */
  lemma PlaceholderStable()
    ensures !Text.Blank(Placeholder) && Text.Trim(Placeholder) == Placeholder
  {
    assert !Text.IsJsSpace(Placeholder[0]);
    Text.TrimUntrimmed(Placeholder);
  }

  /** A trimmed text that is not empty trims to itself and is not blank. */
  lemma TrimmedStable(s: string)
    requires Text.Trim(s) != []
    ensures !Text.Blank(Text.Trim(s)) && Text.Trim(Text.Trim(s)) == Text.Trim(s)
  {
    Text.TrimIdempotent(s);
    Text.TrimEmptyIffBlank(Text.Trim(s));
  }

  /** Submitting a created document's own fields again creates the same document. */
  lemma DocumentRequestStable(title: string, content: string)
    requires DocumentRequest(title, content).Some?
    ensures var d := DocumentRequest(title, content).value;
      DocumentRequest(d.title, d.content) == Some(d)
  {
    var d := DocumentRequest(title, content).value;
    TrimmedStable(title);
    Text.TrimEmptyIffBlank(content);
    if Text.Blank(content) {
      PlaceholderStable();
    } else {
      TrimmedStable(content);
    }
    assert !Text.Blank(d.title) && Text.Trim(d.title) == d.title;
    assert !Text.Blank(d.content) && Text.Trim(d.content) == d.content;
  }

  // ---------------------------------------------------------------------
  // cards and the empty state
  // ---------------------------------------------------------------------

  const PreviewLength := 150

  /**
   * The card's preview: a content of at most 150 characters as it is, a
   * longer one cut to its first 150 followed by `...`.
   */
  function Preview(content: string): (p: string)
    ensures |p| <= PreviewLength + 3
    ensures |content| <= PreviewLength ==> p == content
    ensures |content| > PreviewLength ==>
      |p| == PreviewLength + 3 && p[..PreviewLength] == content[..PreviewLength] && p[PreviewLength..] == "..."
  {
    if |content| > PreviewLength then content[..PreviewLength] + "..." else content
  }

  /** Previewing a preview changes nothing. */
  lemma PreviewIdempotent(content: string)
    ensures Preview(Preview(content)) == Preview(content)
  {
    if |content| > PreviewLength {
      var p := Preview(content);
      assert p[..PreviewLength] == content[..PreviewLength];
      assert p == p[..PreviewLength] + "...";
    }
  }

  /** The heading over an empty result. */
  function EmptyHeading(term: string): (h: string)
    ensures h == "No documents found" <==> term != []
    ensures h == "No documents yet" <==> term == []
  {
    if term != [] then "No documents found" else "No documents yet"
  }

  /** `No documents yet` shows only when there really are no documents. */
  lemma NothingYetMeansEmpty(documents: Option<seq<Document>>, term: string)
    requires FilteredDocuments(documents, term) == [] && EmptyHeading(term) == "No documents yet"
    ensures documents.None? || documents.value == []
  {
    if documents.Some? {
      EmptyTermKeepsAll(documents.value);
    }
  }
}
