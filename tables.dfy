/** The two fixed lookup tables of Code/scoring.py and the scorers built on
    them: primary use (exact label lookup) and structure material (exact
    lookup first, then a fixed keyword order). */
module Tables {
  import opened Common
  import opened Text
  import opened Parsers

  /** `MAIN_USE_SCORE_MAP`: primary-use label to score. */
  const MainUseScores: map<string, real> := map[
    "숙박시설" := 9.0,
    "야영장시설" := 9.0,
    "관광휴게시설" := 9.0,
    "공장" := 8.0,
    "창고시설" := 8.0,
    "노유자시설" := 7.0,
    "교육연구시설" := 7.0,
    "교육연구및복지시설" := 7.0,
    "의료시설" := 7.0,
    "수련시설" := 7.0,
    "제2종근린생활시설" := 5.0,
    "근린생활시설" := 5.0,
    "제1종근린생활시설" := 5.0,
    "종교시설" := 5.0,
    "문화및집회시설" := 5.0,
    "운동시설" := 5.0,
    "업무시설" := 5.0,
    "판매시설" := 5.0,
    "위락시설" := 5.0,
    "판매및영업시설" := 5.0,
    "기타제1종근린생활시설" := 5.0,
    "생활편익시설" := 5.0,
    "소매점" := 5.0,
    "동물및식물관련시설" := 4.0,
    "위험물저장및처리시설" := 4.0,
    "자원순환관련시설" := 4.0,
    "분뇨.쓰레기처리시설" := 4.0,
    "방송통신시설" := 4.0,
    "자동차관련시설" := 4.0,
    "장례시설" := 4.0,
    "운수시설" := 4.0,
    "교정및군사시설" := 4.0,
    "국방,군사시설" := 4.0,
    "발전시설" := 4.0,
    "묘지관련시설" := 4.0,
    "단독주택" := 2.0,
    "공동주택" := 2.0,
    "다가구주택" := 2.0,
    "공공용시설" := 1.0
  ]

  /** Every score `main_use_score_exact` can return: the table's values and the default 0. */
  const MainUseValues: set<real> := {0.0, 1.0, 2.0, 4.0, 5.0, 7.0, 8.0, 9.0}

  /** `STRUCTURE_SCORE_MAP`: structure-material label to score. */
  const StructureScores: map<string, real> := map[
    "철근콘크리트구조" := 0.0,
    "콘크리트구조" := 0.0,
    "프리케스트콘크리트구조" := 0.0,
    "보강콘크리트조" := 0.0,
    "기타콘크리트구조" := 0.0,
    "라멘조" := 0.0,
    "일반철골구조" := 2.0,
    "경량철골구조" := 2.0,
    "강파이프구조" := 2.0,
    "철파이프조" := 2.0,
    "기타강구조" := 2.0,
    "스틸하우스조" := 2.0,
    "단일형강구조" := 2.0,
    "철골구조" := 2.0,
    "공업화박판강구조(PEB)" := 2.0,
    "트러스구조" := 2.0,
    "철골콘크리트구조" := 2.0,
    "철골철근콘크리트구조" := 2.0,
    "철골철근콘크리트합성구조" := 2.0,
    "기타철골철근콘크리트구조" := 2.0,
    "일반목구조" := 5.0,
    "목구조" := 5.0,
    "통나무구조" := 5.0,
    "트러스목구조" := 5.0,
    "벽돌구조" := 4.0,
    "블록구조" := 4.0,
    "시멘트블럭조" := 4.0,
    "조적구조" := 4.0,
    "기타조적구조" := 4.0,
    "석구조" := 4.0,
    "흙벽돌조" := 4.0,
    "조립식판넬조" := 3.0,
    "컨테이너조" := 3.0,
    "막구조" := 1.0,
    "기타구조" := 1.0
  ]

  const StructureValues: set<real> := {0.0, 1.0, 2.0, 3.0, 4.0, 5.0}

  /** `main_use_score_exact`: the exact table score of the stripped label;
      None, NaN, blank, "nan" in any case, and unmapped labels score 0. A
      numeric cell's text (digits, sign, point) is no table key, so numeric
      cells score 0 as well. */
  function MainUseScoreExact(v: Raw): (score: real)
    ensures score in MainUseValues
  {
    match v
    case Str(t) =>
      var s := Strip(t);
      if s == "" || IsNanText(s) then 0.0
      else if s in MainUseScores then MainUseScores[s]
      else 0.0
    case _ => 0.0
  }

  /** A label is scored by its stripped text alone: the table value when the
      stripped text is a key, 0 otherwise. */
  lemma MainUseLookup(t: string)
    ensures Strip(t) in MainUseScores ==> MainUseScoreExact(Str(t)) == MainUseScores[Strip(t)]
    ensures Strip(t) !in MainUseScores ==> MainUseScoreExact(Str(t)) == 0.0
  {
  }

  /** The keyword fallback of `structure_score`, checked in its fixed order:
      wood, masonry, prefabricated, steel, membrane/special, concrete. */
  function StructureKeywordScore(s: string): (score: real)
    ensures score in StructureValues
  {
    if Contains(s, "목") || Contains(s, "통나무") then 5.0
    else if Contains(s, "조적") || Contains(s, "벽돌") || Contains(s, "블록") || Contains(s, "석") then 4.0
    else if Contains(s, "조립") || Contains(s, "판넬") || Contains(s, "컨테이너") then 3.0
    else if Contains(s, "철골") || Contains(s, "강구조") || Contains(s, "스틸") || Contains(s, "파이프") then 2.0
    else if Contains(s, "막") || Contains(s, "특수") then 1.0
    else if Contains(s, "콘크리트") || Contains(s, "라멘") then 0.0
    else 0.0
  }

  /** `structure_score`: exact table entry first, keywords otherwise, 0 by default. */
  function StructureScore(v: Raw): (score: real)
    ensures score in StructureValues
  {
    match v
    case Str(t) =>
      var s := Strip(t);
      if s == "" || IsNanText(s) then 0.0
      else if s in StructureScores then StructureScores[s]
      else StructureKeywordScore(s)
    case _ => 0.0
  }

  /** An exact table entry always wins over the keywords; any other
      non-blank label is scored by the keywords. */
  lemma StructureTablePriority(t: string)
    ensures Strip(t) in StructureScores ==> StructureScore(Str(t)) == StructureScores[Strip(t)]
    ensures Strip(t) !in StructureScores && Strip(t) != "" && !IsNanText(Strip(t)) ==>
      StructureScore(Str(t)) == StructureKeywordScore(Strip(t))
  {
  }

  /** Priority matters: for "기타구조" the table and the keywords disagree,
      and the table's value is the one returned. */
  lemma OtherLabelUsesTable()
    ensures StructureScore(Str("기타구조")) == 1.0 && StructureKeywordScore("기타구조") == 0.0
  {
    NoKeywordInOther();
    StripLabel("기타구조");
  }

  /** Likewise "시멘트블럭조" (spelt 블럭, not the keyword 블록) scores 4 only through the table. */
  lemma CementBlockUsesTable()
    ensures StructureScore(Str("시멘트블럭조")) == 4.0 && StructureKeywordScore("시멘트블럭조") == 0.0
  {
    NoKeywordInBlock();
    StripLabel("시멘트블럭조");
    BlockLabelEntry();
    StructureTablePriority("시멘트블럭조");
  }

  lemma BlockLabelEntry()
    ensures "시멘트블럭조" in StructureScores && StructureScores["시멘트블럭조"] == 4.0
  {
  }

  lemma StripLabel(s: string)
    requires s == "기타구조" || s == "시멘트블럭조"
    ensures Strip(s) == s
  {
    assert LeadingSpaces(s) == 0 && TrailingSpaces(s) == 0;
  }

  lemma NoKeywordInOther()
    ensures StructureKeywordScore("기타구조") == 0.0
  {
    var s := "기타구조";
    assert s[..|s|] == s;
    NotContains(s, "목"); NotContains(s, "통나무");
    NotContains(s, "조적"); NotContains(s, "벽돌"); NotContains(s, "블록"); NotContains(s, "석");
    NotContains(s, "조립"); NotContains(s, "판넬"); NotContains(s, "컨테이너");
    NotContains(s, "철골"); NotContains(s, "강구조"); NotContains(s, "스틸"); NotContains(s, "파이프");
    NotContains(s, "막"); NotContains(s, "특수");
  }

  lemma NoKeywordInBlock()
    ensures StructureKeywordScore("시멘트블럭조") == 0.0
  {
    BlockNotWoodOrMasonry();
    BlockNotPanelOrSteel();
    BlockNotOther();
    NoBlockKeyword();
  }

  lemma BlockNotWoodOrMasonry()
    ensures !Contains("시멘트블럭조", "목") && !Contains("시멘트블럭조", "통나무")
    ensures !Contains("시멘트블럭조", "조적") && !Contains("시멘트블럭조", "벽돌") && !Contains("시멘트블럭조", "석")
  {
    var s := "시멘트블럭조";
    assert s[..|s|] == s;
    NotContains(s, "목"); NotContains(s, "통나무");
    NotContains(s, "조적"); NotContains(s, "벽돌"); NotContains(s, "석");
  }

  lemma BlockNotPanelOrSteel()
    ensures !Contains("시멘트블럭조", "조립") && !Contains("시멘트블럭조", "판넬") && !Contains("시멘트블럭조", "컨테이너")
    ensures !Contains("시멘트블럭조", "철골") && !Contains("시멘트블럭조", "강구조")
  {
    var s := "시멘트블럭조";
    assert s[..|s|] == s;
    NotContains(s, "조립"); NotContains(s, "판넬"); NotContains(s, "컨테이너");
    NotContains(s, "철골"); NotContains(s, "강구조");
  }

  lemma BlockNotOther()
    ensures !Contains("시멘트블럭조", "스틸") && !Contains("시멘트블럭조", "파이프")
    ensures !Contains("시멘트블럭조", "막") && !Contains("시멘트블럭조", "특수")
  {
    var s := "시멘트블럭조";
    assert s[..|s|] == s;
    NotContains(s, "스틸"); NotContains(s, "파이프");
    NotContains(s, "막"); NotContains(s, "특수");
  }

  lemma NoBlockKeyword()
    ensures !Contains("시멘트블럭조", "블록")
  {
    var s := "시멘트블럭조";
    assert s[..3] == "시멘트" && s[3..] == "블럭조";
    assert "블럭조"[..2] != "블록" by { assert "블럭조"[..2][1] != "블록"[1]; }
    assert "블럭조"[1..] == "럭조";
    NotContains("럭조", "블록");
    NotContainsAfter(s, "블록", 3);
  }

  /** An unmapped label mentioning wood (목) gets the wood tier, whatever else it mentions. */
  lemma UnmappedWoodLabel(t: string)
    requires Strip(t) !in StructureScores && Contains(Strip(t), "목")
    ensures StructureScore(Str(t)) == 5.0
  {
    ContainsFirstChar(Strip(t), "목");
  }
}
