/**
  The documentation content tree: sections own articles, articles own typed
  content blocks, and `DocsData` is the store the query service reads.
*/
module DocsIndex {
  import opened Wrappers

  /** The closed set of content-block tags. */
  datatype ContentKind = Text | Code | Image | Download | Result | Guide

  /** A content block; its kind-dependent payload is not interpreted by the core. */
  datatype DocContent = DocContent(kind: ContentKind)

  /** A calendar date, as written `YYYY-MM-DD` in `lastUpdated`. */
  datatype Date = Date(year: int, month: int, day: int)

  datatype DocArticle = DocArticle(
    id: string,
    title: string,
    description: string,
    content: seq<DocContent>,
    tags: seq<string>,
    lastUpdated: Date,
    readTime: int)

  datatype DocSection = DocSection(
    id: string,
    title: string,
    description: string,
    icon: string,
    order: int,
    articles: seq<DocArticle>)

  /** The string tag of a content kind. */
  function KindTag(k: ContentKind): string
  {
    match k
    case Text => "text"
    case Code => "code"
    case Image => "image"
    case Download => "download"
    case Result => "result"
    case Guide => "guide"
  }

  /** The kind a tag names, if it is one of the six. */
  function ParseKind(s: string): (r: Option<ContentKind>)
    ensures r.Some? ==> KindTag(r.value) == s
  {
    if s == "text" then Some(Text)
    else if s == "code" then Some(Code)
    else if s == "image" then Some(Image)
    else if s == "download" then Some(Download)
    else if s == "result" then Some(Result)
    else if s == "guide" then Some(Guide)
    else None
  }

  /** Every kind's tag parses back to that kind: the tag set is exactly the six kinds. */
  lemma KindTagRoundTrip(k: ContentKind)
    ensures ParseKind(KindTag(k)) == Some(k)
  {
  }

  /** A date is well formed when its month and day are in calendar range. */
  predicate ValidDate(d: Date)
  {
    1 <= d.month <= 12 && 1 <= d.day <= 31
  }

  /** A number that ranks valid dates in calendar order (used as the sort key). */
  function DayNumber(d: Date): int
  {
    d.year * 512 + d.month * 32 + d.day
  }

  /** Calendar order on dates: year, then month, then day. */
  predicate DateBefore(a: Date, b: Date)
  {
    a.year < b.year || (a.year == b.year && (a.month < b.month || (a.month == b.month && a.day < b.day)))
  }

  /** On valid dates the rank agrees with calendar order, so comparing ranks compares dates. */
  lemma DayNumberOrder(a: Date, b: Date)
    requires ValidDate(a) && ValidDate(b)
    ensures DayNumber(a) < DayNumber(b) <==> DateBefore(a, b)
    ensures DayNumber(a) == DayNumber(b) <==> a == b
  {
    if a.year < b.year {
      assert DayNumber(a) < (a.year + 1) * 512 <= DayNumber(b);
    } else if a.year > b.year {
      assert DayNumber(b) < (b.year + 1) * 512 <= DayNumber(a);
    }
  }

  const JAN_15_2024 := Date(2024, 1, 15)

  const WhatIsNeuroMuseo := DocArticle(
    "what-is-neuro-museo", "¿Qué es Neuro-Museo?", "Introducción al proyecto y sus objetivos",
    [DocContent(Text), DocContent(Image)], ["introducción", "concepto"], JAN_15_2024, 5)

  const Architecture := DocArticle(
    "architecture", "Arquitectura del Sistema", "Diseño técnico y componentes principales",
    [DocContent(Text), DocContent(Code)], ["arquitectura", "técnico"], JAN_15_2024, 8)

  const DatasetPreparation := DocArticle(
    "dataset-preparation", "Preparación del Dataset", "Cómo preparamos los datos para el entrenamiento",
    [DocContent(Text), DocContent(Code), DocContent(Result)], ["dataset", "preprocessing"], JAN_15_2024, 10)

  const TrainingProcess := DocArticle(
    "training-process", "Proceso de Entrenamiento", "Configuración y metodología de entrenamiento",
    [DocContent(Text), DocContent(Code)], ["entrenamiento", "optimización"], JAN_15_2024, 12)

  const PerformanceMetrics := DocArticle(
    "performance-metrics", "Métricas de Rendimiento", "Evaluación cuantitativa del modelo",
    [DocContent(Result), DocContent(Image)], ["métricas", "evaluación"], JAN_15_2024, 6)

  const HowToUse := DocArticle(
    "how-to-use", "Cómo Usar la Demo", "Guía paso a paso para probar el modelo",
    [DocContent(Guide)], ["demo", "tutorial"], JAN_15_2024, 4)

  const Resources := DocArticle(
    "resources", "Recursos Disponibles", "Documentos, datasets y modelos para descarga",
    [DocContent(Download)], ["recursos", "descarga"], JAN_15_2024, 2)

  const Introduction := DocSection(
    "introduction", "Introducción", "Conceptos básicos y arquitectura del modelo", "BookOpen", 1,
    [WhatIsNeuroMuseo, Architecture])

  const Training := DocSection(
    "training", "Proceso de Entrenamiento", "Metodología y técnicas utilizadas", "Brain", 2,
    [DatasetPreparation, TrainingProcess])

  const Results := DocSection(
    "results", "Resultados y Métricas", "Evaluación del rendimiento del modelo", "BarChart", 3,
    [PerformanceMetrics])

  const DemoGuide := DocSection(
    "demo-guide", "Guía de la Demo", "Cómo usar la demostración interactiva", "PlayCircle", 4,
    [HowToUse])

  const Downloads := DocSection(
    "downloads", "Descargas", "Recursos y archivos para descarga", "Download", 5,
    [Resources])

  /** The store as the application ships it. */
  const DocsData: seq<DocSection> := [Introduction, Training, Results, DemoGuide, Downloads]
}
