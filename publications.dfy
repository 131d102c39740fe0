/** The publication entity and search term shared by the two admin publications pages. */
module Publications {
  import opened Text

  /** A publication as held in `fullList`: the document id spread with its fields. */
  datatype Publication = Publication(
    id: string, title: string, author: string, category: string,
    summary: string, imageURL: string, uid: string)

  /** The search term: the input trimmed and lower-cased. */
  function SearchTerm(input: string): string {
    Lower(Trim(input))
  }

  /** The form as submitted; `publicationId` is empty when creating. */
  datatype PublicationForm = PublicationForm(
    publicationId: string, title: string, author: string, category: string, summary: string)

  /** An update of the document with this id, or the addition of a new one. */
  datatype WriteKind = Create | Update(id: string)
}
