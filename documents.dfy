/** The document record shared by retrieval and ingestion: LangChain's
    `Document`, reduced to its text (its metadata is never read by the core). */
module Documents {

  datatype Document = Document(pageContent: string)
}
