/** The stop-word lists that keyword extraction ignores (lib/utils/stopwords.ts). */
module Stopwords {
  import opened Chars

  /** Function words and résumé boilerplate. */
  const STOPWORDS: set<string> := {
    "a", "an", "the",
    "and", "but", "or", "nor", "for", "yet", "so",
    "in", "on", "at", "to", "from", "by", "with", "about", "as", "into",
    "through", "during", "before", "after", "above", "below", "between",
    "under", "over", "of", "off", "up", "down", "out",
    "i", "you", "he", "she", "it", "we", "they", "me", "him", "her",
    "us", "them", "my", "your", "his", "its", "our", "their", "mine",
    "yours", "hers", "ours", "theirs", "this", "that", "these", "those",
    "who", "whom", "whose", "which", "what",
    "is", "am", "are", "was", "were", "be", "been", "being", "have",
    "has", "had", "do", "does", "did", "will", "would", "should",
    "could", "may", "might", "must", "can", "shall",
    "not", "no", "yes", "if", "when", "where", "why", "how", "all",
    "each", "every", "both", "few", "more", "most", "other", "some",
    "such", "than", "too", "very", "just", "now", "then", "there",
    "here", "well", "only", "also", "again", "however", "therefore",
    "resume", "cv", "curriculum", "vitae", "page", "email", "phone",
    "address", "linkedin", "github", "portfolio"
  }

  /** Words every résumé contains, which are never keywords. */
  const COMMON_RESUME_WORDS: set<string> := {
    "experience", "education", "skills", "summary", "objective",
    "professional", "work", "history", "responsibilities", "duties",
    "accomplishments", "achievements", "position", "role", "title",
    "company", "organization", "university", "college", "school",
    "degree", "certification", "certificate", "award", "honor",
    "references", "available", "upon", "request"
  }

  /** `isStopword`: membership of the lowercased word in either list. */
  predicate IsStopword(w: string) {
    var lower := LowerStr(w);
    lower in STOPWORDS || lower in COMMON_RESUME_WORDS
  }

  /** The lookup ignores case. */
  lemma StopwordIgnoresCase(w: string)
    ensures IsStopword(w) == IsStopword(LowerStr(w))
  {
    LowerStrIdempotent(w);
  }

  /** A word is a stop word exactly when its lowercase form is listed. */
  lemma StopwordIff(w: string)
    ensures IsStopword(w) <==> LowerStr(w) in STOPWORDS + COMMON_RESUME_WORDS
  {
  }

  /** The section names of a résumé are stop words in any capitalisation. */
  lemma StructuralWordsAreStopwords(w: string)
    requires LowerStr(w) in ["experience", "skills", "education", "professional", "company"]
    ensures IsStopword(w)
  {
  }
}
