/**
 * The static `skill_keywords` table: field names, each with its ordered
 * keyword list. Python dicts iterate in insertion order, so the table is a
 * sequence of pairs and its order decides ties between fields.
 */
module Taxonomy {

  /** Field name and its keywords, in definition order. */
  type Taxonomy = seq<(string, seq<string>)>

  const SkillKeywords: Taxonomy := [
    ("data science", [
      "python", "pandas", "numpy", "scikit-learn", "tensorflow", "keras", "pytorch",
      "machine learning", "deep learning", "nlp", "statistics", "sql", "modeling"]),
    ("web development", [
      "html", "css", "javascript", "react", "vue", "angular", "node", "express",
      "django", "flask", "typescript"]),
    ("marketing", ["marketing", "seo", "branding", "advertising", "content", "campaign"]),
    ("sales", ["sales", "crm", "negotiation", "lead generation", "b2b", "b2c"]),
    ("graphic design", ["photoshop", "illustrator", "figma", "ui", "ux", "adobe"]),
    ("medicine", ["medical", "clinical", "patient", "diagnosis", "surgery", "nurse"]),
    ("finance", ["accounting", "finance", "budgeting", "excel", "audit", "tax"]),
    ("education", ["teacher", "curriculum", "lesson", "training", "student"]),
    ("engineering", ["cad", "mechanical", "electrical", "civil", "autocad"]),
    ("law", ["law", "legal", "contract", "compliance", "litigation"])
  ]

  /** The label `detect_job_field` returns when no field scores. */
  const General: string := "General"

  /** The field names of a taxonomy, in order. */
  function FieldNames(taxonomy: Taxonomy): (names: seq<string>)
    ensures |names| == |taxonomy|
    ensures forall i :: 0 <= i < |taxonomy| ==> names[i] == taxonomy[i].0
  {
    seq(|taxonomy|, i requires 0 <= i < |taxonomy| => taxonomy[i].0)
  }

  predicate NoDuplicates<T(==)>(s: seq<T>) {
    forall i, j :: 0 <= i < j < |s| ==> s[i] != s[j]
  }

  /**
   * The ten fields of the table, in order; their names are distinct and
   * none of them is the fallback label.
   */
  lemma SkillKeywordsFields()
    ensures FieldNames(SkillKeywords) == [
      "data science", "web development", "marketing", "sales", "graphic design",
      "medicine", "finance", "education", "engineering", "law"]
    ensures NoDuplicates(FieldNames(SkillKeywords))
    ensures General !in FieldNames(SkillKeywords)
  {
  }

}
