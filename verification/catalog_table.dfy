/** The classification of the twelve catalog concepts, proved concept by concept. */
module CatalogTable {
  import opened Strings
  import opened Catalog

  // Each concept is lower case already; every keyword of an earlier rule is shown absent,
  // one keyword per lemma, by a character the concept lacks (or, where every character is
  // there, word by word); the matching keyword is shown present by exhibiting the concept
  // as text around it. Classify* then puts the facts together.

  lemma AuthorityFigureInUniformLowerCase(c: string)
    requires c == "authority figure in uniform"
    ensures Lower(c) == c
  {
  }

  lemma AuthorityFigureInUniformHas(c: string)
    requires c == Concepts[0]
    ensures Contains(c, "authority")
  {
    assert c == "" + "authority" + " figure in uniform";
    ContainsInfix("", "authority", " figure in uniform");
  }

  lemma ClassifyAuthorityFigureInUniform(c: string)
    requires c == Concepts[0]
    ensures Categorize(c) == Authority
  {
    assert c == "authority figure in uniform";
    AuthorityFigureInUniformLowerCase(c);
    AuthorityFigureInUniformHas(c);
  }

  lemma MilitaryPropagandaPosterLowerCase(c: string)
    requires c == "military propaganda poster"
    ensures Lower(c) == c
  {
  }

  lemma MilitaryPropagandaPosterLacksAuthority(c: string)
    requires c == "military propaganda poster"
    ensures !Contains(c, "authority")
  {
    NotContainsByChar(c, "authority", 'u');
  }

  lemma MilitaryPropagandaPosterLacksUniform(c: string)
    requires c == "military propaganda poster"
    ensures !Contains(c, "uniform")
  {
    NotContainsByChar(c, "uniform", 'u');
  }

  lemma MilitaryPropagandaPosterLacksManipulation(c: string)
    requires c == "military propaganda poster"
    ensures !Contains(c, "manipulation")
  {
    NotContainsByChar(c, "manipulation", 'u');
  }

  lemma MilitaryPropagandaPosterLacksFear(c: string)
    requires c == "military propaganda poster"
    ensures !Contains(c, "fear")
  {
    NotContainsByChar(c, "fear", 'f');
  }

  lemma MilitaryPropagandaPosterLacksPatriotic(c: string)
    requires c == "military propaganda poster"
    ensures !Contains(c, "patriotic")
  {
    NotContainsByChar(c, "patriotic", 'c');
  }

  lemma MilitaryPropagandaPosterLacksFlag(c: string)
    requires c == "military propaganda poster"
    ensures !Contains(c, "flag")
  {
    NotContainsByChar(c, "flag", 'f');
  }

  lemma MilitaryPropagandaPosterLacksWorship(c: string)
    requires c == "military propaganda poster"
    ensures !Contains(c, "worship")
  {
    NotContainsByChar(c, "worship", 'w');
  }

  lemma MilitaryPropagandaPosterLacksWar(c: string)
    requires c == "military propaganda poster"
    ensures !Contains(c, "war")
  {
    NotContainsByChar(c, "war", 'w');
  }

  lemma MilitaryPropagandaPosterLacksVersus(c: string)
    requires c == "military propaganda poster"
    ensures !Contains(c, "versus")
  {
    NotContainsByChar(c, "versus", 'v');
  }

  lemma MilitaryPropagandaPosterLacksAction(c: string)
    requires c == "military propaganda poster"
    ensures !Contains(c, "action")
  {
    NotContainsByChar(c, "action", 'c');
  }

  lemma MilitaryPropagandaPosterLacksCall(c: string)
    requires c == "military propaganda poster"
    ensures !Contains(c, "call")
  {
    NotContainsByChar(c, "call", 'c');
  }

  lemma MilitaryPropagandaPosterLacksHistorical(c: string)
    requires c == "military propaganda poster"
    ensures !Contains(c, "historical")
  {
    NotContainsByChar(c, "historical", 'h');
  }

  lemma MilitaryPropagandaPosterLacksEmotional(c: string)
    requires c == "military" + " " + "propaganda" + " " + "poster"
    ensures !Contains(c, "emotional")
  {
    ContainsInWords("military" + " " + "propaganda", "poster", "emotional");
    ContainsInWords("military", "propaganda", "emotional");
    NotContainsLonger("military", "emotional");
    NotContainsByChar("propaganda", "emotional", 'e');
    NotContainsLonger("poster", "emotional");
  }

  lemma MilitaryPropagandaPosterLacksLeader(c: string)
    requires c == "military" + " " + "propaganda" + " " + "poster"
    ensures !Contains(c, "leader")
  {
    ContainsInWords("military" + " " + "propaganda", "poster", "leader");
    ContainsInWords("military", "propaganda", "leader");
    NotContainsByChar("military", "leader", 'e');
    NotContainsByChar("propaganda", "leader", 'l');
    NotContainsByChar("poster", "leader", 'l');
  }

  lemma ClassifyMilitaryPropagandaPoster(c: string)
    requires c == Concepts[1]
    ensures Categorize(c) == General
  {
    assert c == "military propaganda poster";
    assert c == "military" + " " + "propaganda" + " " + "poster";
    MilitaryPropagandaPosterLowerCase(c);
    MilitaryPropagandaPosterLacksAuthority(c);
    MilitaryPropagandaPosterLacksUniform(c);
    MilitaryPropagandaPosterLacksManipulation(c);
    MilitaryPropagandaPosterLacksFear(c);
    MilitaryPropagandaPosterLacksPatriotic(c);
    MilitaryPropagandaPosterLacksFlag(c);
    MilitaryPropagandaPosterLacksWorship(c);
    MilitaryPropagandaPosterLacksWar(c);
    MilitaryPropagandaPosterLacksVersus(c);
    MilitaryPropagandaPosterLacksAction(c);
    MilitaryPropagandaPosterLacksCall(c);
    MilitaryPropagandaPosterLacksHistorical(c);
    MilitaryPropagandaPosterLacksEmotional(c);
    MilitaryPropagandaPosterLacksLeader(c);
  }

  lemma PoliticalRallyWithFlagsLowerCase(c: string)
    requires c == "political rally with flags"
    ensures Lower(c) == c
  {
  }

  lemma PoliticalRallyWithFlagsLacksAuthority(c: string)
    requires c == "political rally with flags"
    ensures !Contains(c, "authority")
  {
    NotContainsByChar(c, "authority", 'u');
  }

  lemma PoliticalRallyWithFlagsLacksUniform(c: string)
    requires c == "political rally with flags"
    ensures !Contains(c, "uniform")
  {
    NotContainsByChar(c, "uniform", 'u');
  }

  lemma PoliticalRallyWithFlagsLacksEmotional(c: string)
    requires c == "political rally with flags"
    ensures !Contains(c, "emotional")
  {
    NotContainsByChar(c, "emotional", 'e');
  }

  lemma PoliticalRallyWithFlagsLacksManipulation(c: string)
    requires c == "political rally with flags"
    ensures !Contains(c, "manipulation")
  {
    NotContainsByChar(c, "manipulation", 'm');
  }

  lemma PoliticalRallyWithFlagsLacksFear(c: string)
    requires c == "political rally with flags"
    ensures !Contains(c, "fear")
  {
    NotContainsByChar(c, "fear", 'e');
  }

  lemma PoliticalRallyWithFlagsHas(c: string)
    requires c == Concepts[2]
    ensures Contains(c, "flag")
  {
    assert c == "political rally with " + "flag" + "s";
    ContainsInfix("political rally with ", "flag", "s");
  }

  lemma ClassifyPoliticalRallyWithFlags(c: string)
    requires c == Concepts[2]
    ensures Categorize(c) == Patriotic
  {
    assert c == "political rally with flags";
    PoliticalRallyWithFlagsLowerCase(c);
    PoliticalRallyWithFlagsLacksAuthority(c);
    PoliticalRallyWithFlagsLacksUniform(c);
    PoliticalRallyWithFlagsLacksEmotional(c);
    PoliticalRallyWithFlagsLacksManipulation(c);
    PoliticalRallyWithFlagsLacksFear(c);
    PoliticalRallyWithFlagsHas(c);
  }

  lemma EmotionalManipulationImageryLowerCase(c: string)
    requires c == "emotional manipulation imagery"
    ensures Lower(c) == c
  {
  }

  lemma EmotionalManipulationImageryLacksAuthority(c: string)
    requires c == "emotional manipulation imagery"
    ensures !Contains(c, "authority")
  {
    NotContainsByChar(c, "authority", 'h');
  }

  lemma EmotionalManipulationImageryLacksUniform(c: string)
    requires c == "emotional manipulation imagery"
    ensures !Contains(c, "uniform")
  {
    NotContainsByChar(c, "uniform", 'f');
  }

  lemma EmotionalManipulationImageryHas(c: string)
    requires c == Concepts[3]
    ensures Contains(c, "emotional")
  {
    assert c == "" + "emotional" + " manipulation imagery";
    ContainsInfix("", "emotional", " manipulation imagery");
  }

  lemma ClassifyEmotionalManipulationImagery(c: string)
    requires c == Concepts[3]
    ensures Categorize(c) == Emotional
  {
    assert c == "emotional manipulation imagery";
    EmotionalManipulationImageryLowerCase(c);
    EmotionalManipulationImageryLacksAuthority(c);
    EmotionalManipulationImageryLacksUniform(c);
    EmotionalManipulationImageryHas(c);
  }

  lemma FearInducingPropagandaLowerCase(c: string)
    requires c == "fear-inducing propaganda"
    ensures Lower(c) == c
  {
  }

  lemma FearInducingPropagandaLacksAuthority(c: string)
    requires c == "fear-inducing propaganda"
    ensures !Contains(c, "authority")
  {
    NotContainsByChar(c, "authority", 't');
  }

  lemma FearInducingPropagandaLacksUniform(c: string)
    requires c == "fear-inducing propaganda"
    ensures !Contains(c, "uniform")
  {
    NotContainsByChar(c, "uniform", 'm');
  }

  lemma FearInducingPropagandaLacksEmotional(c: string)
    requires c == "fear-inducing propaganda"
    ensures !Contains(c, "emotional")
  {
    NotContainsByChar(c, "emotional", 'm');
  }

  lemma FearInducingPropagandaLacksManipulation(c: string)
    requires c == "fear-inducing propaganda"
    ensures !Contains(c, "manipulation")
  {
    NotContainsByChar(c, "manipulation", 'm');
  }

  lemma FearInducingPropagandaHas(c: string)
    requires c == Concepts[4]
    ensures Contains(c, "fear")
  {
    assert c == "" + "fear" + "-inducing propaganda";
    ContainsInfix("", "fear", "-inducing propaganda");
  }

  lemma ClassifyFearInducingPropaganda(c: string)
    requires c == Concepts[4]
    ensures Categorize(c) == Fear
  {
    assert c == "fear-inducing propaganda";
    FearInducingPropagandaLowerCase(c);
    FearInducingPropagandaLacksAuthority(c);
    FearInducingPropagandaLacksUniform(c);
    FearInducingPropagandaLacksEmotional(c);
    FearInducingPropagandaLacksManipulation(c);
    FearInducingPropagandaHas(c);
  }

  lemma PatrioticSymbolsAndColorsLowerCase(c: string)
    requires c == "patriotic symbols and colors"
    ensures Lower(c) == c
  {
  }

  lemma PatrioticSymbolsAndColorsLacksAuthority(c: string)
    requires c == "patriotic symbols and colors"
    ensures !Contains(c, "authority")
  {
    NotContainsByChar(c, "authority", 'u');
  }

  lemma PatrioticSymbolsAndColorsLacksUniform(c: string)
    requires c == "patriotic symbols and colors"
    ensures !Contains(c, "uniform")
  {
    NotContainsByChar(c, "uniform", 'u');
  }

  lemma PatrioticSymbolsAndColorsLacksEmotional(c: string)
    requires c == "patriotic symbols and colors"
    ensures !Contains(c, "emotional")
  {
    NotContainsByChar(c, "emotional", 'e');
  }

  lemma PatrioticSymbolsAndColorsLacksManipulation(c: string)
    requires c == "patriotic symbols and colors"
    ensures !Contains(c, "manipulation")
  {
    NotContainsByChar(c, "manipulation", 'u');
  }

  lemma PatrioticSymbolsAndColorsLacksFear(c: string)
    requires c == "patriotic symbols and colors"
    ensures !Contains(c, "fear")
  {
    NotContainsByChar(c, "fear", 'f');
  }

  lemma PatrioticSymbolsAndColorsHas(c: string)
    requires c == Concepts[5]
    ensures Contains(c, "patriotic")
  {
    assert c == "" + "patriotic" + " symbols and colors";
    ContainsInfix("", "patriotic", " symbols and colors");
  }

  lemma ClassifyPatrioticSymbolsAndColors(c: string)
    requires c == Concepts[5]
    ensures Categorize(c) == Patriotic
  {
    assert c == "patriotic symbols and colors";
    PatrioticSymbolsAndColorsLowerCase(c);
    PatrioticSymbolsAndColorsLacksAuthority(c);
    PatrioticSymbolsAndColorsLacksUniform(c);
    PatrioticSymbolsAndColorsLacksEmotional(c);
    PatrioticSymbolsAndColorsLacksManipulation(c);
    PatrioticSymbolsAndColorsLacksFear(c);
    PatrioticSymbolsAndColorsHas(c);
  }

  lemma LeaderWorshipImageryLowerCase(c: string)
    requires c == "leader worship imagery"
    ensures Lower(c) == c
  {
  }

  lemma LeaderWorshipImageryLacksAuthority(c: string)
    requires c == "leader worship imagery"
    ensures !Contains(c, "authority")
  {
    NotContainsByChar(c, "authority", 'u');
  }

  lemma LeaderWorshipImageryLacksUniform(c: string)
    requires c == "leader worship imagery"
    ensures !Contains(c, "uniform")
  {
    NotContainsByChar(c, "uniform", 'u');
  }

  lemma LeaderWorshipImageryLacksEmotional(c: string)
    requires c == "leader worship imagery"
    ensures !Contains(c, "emotional")
  {
    NotContainsByChar(c, "emotional", 't');
  }

  lemma LeaderWorshipImageryLacksManipulation(c: string)
    requires c == "leader worship imagery"
    ensures !Contains(c, "manipulation")
  {
    NotContainsByChar(c, "manipulation", 'n');
  }

  lemma LeaderWorshipImageryLacksFear(c: string)
    requires c == "leader worship imagery"
    ensures !Contains(c, "fear")
  {
    NotContainsByChar(c, "fear", 'f');
  }

  lemma LeaderWorshipImageryLacksPatriotic(c: string)
    requires c == "leader worship imagery"
    ensures !Contains(c, "patriotic")
  {
    NotContainsByChar(c, "patriotic", 't');
  }

  lemma LeaderWorshipImageryLacksFlag(c: string)
    requires c == "leader worship imagery"
    ensures !Contains(c, "flag")
  {
    NotContainsByChar(c, "flag", 'f');
  }

  lemma LeaderWorshipImageryHas(c: string)
    requires c == Concepts[6]
    ensures Contains(c, "leader")
  {
    assert c == "" + "leader" + " worship imagery";
    ContainsInfix("", "leader", " worship imagery");
  }

  lemma ClassifyLeaderWorshipImagery(c: string)
    requires c == Concepts[6]
    ensures Categorize(c) == Leader
  {
    assert c == "leader worship imagery";
    LeaderWorshipImageryLowerCase(c);
    LeaderWorshipImageryLacksAuthority(c);
    LeaderWorshipImageryLacksUniform(c);
    LeaderWorshipImageryLacksEmotional(c);
    LeaderWorshipImageryLacksManipulation(c);
    LeaderWorshipImageryLacksFear(c);
    LeaderWorshipImageryLacksPatriotic(c);
    LeaderWorshipImageryLacksFlag(c);
    LeaderWorshipImageryHas(c);
  }

  lemma UsVersusThemMessagingLowerCase(c: string)
    requires c == "us versus them messaging"
    ensures Lower(c) == c
  {
  }

  lemma UsVersusThemMessagingLacksAuthority(c: string)
    requires c == "us versus them messaging"
    ensures !Contains(c, "authority")
  {
    NotContainsByChar(c, "authority", 'o');
  }

  lemma UsVersusThemMessagingLacksUniform(c: string)
    requires c == "us versus them messaging"
    ensures !Contains(c, "uniform")
  {
    NotContainsByChar(c, "uniform", 'f');
  }

  lemma UsVersusThemMessagingLacksEmotional(c: string)
    requires c == "us versus them messaging"
    ensures !Contains(c, "emotional")
  {
    NotContainsByChar(c, "emotional", 'o');
  }

  lemma UsVersusThemMessagingLacksManipulation(c: string)
    requires c == "us versus them messaging"
    ensures !Contains(c, "manipulation")
  {
    NotContainsByChar(c, "manipulation", 'p');
  }

  lemma UsVersusThemMessagingLacksFear(c: string)
    requires c == "us versus them messaging"
    ensures !Contains(c, "fear")
  {
    NotContainsByChar(c, "fear", 'f');
  }

  lemma UsVersusThemMessagingLacksPatriotic(c: string)
    requires c == "us versus them messaging"
    ensures !Contains(c, "patriotic")
  {
    NotContainsByChar(c, "patriotic", 'p');
  }

  lemma UsVersusThemMessagingLacksFlag(c: string)
    requires c == "us versus them messaging"
    ensures !Contains(c, "flag")
  {
    NotContainsByChar(c, "flag", 'f');
  }

  lemma UsVersusThemMessagingLacksLeader(c: string)
    requires c == "us versus them messaging"
    ensures !Contains(c, "leader")
  {
    NotContainsByChar(c, "leader", 'l');
  }

  lemma UsVersusThemMessagingLacksWorship(c: string)
    requires c == "us versus them messaging"
    ensures !Contains(c, "worship")
  {
    NotContainsByChar(c, "worship", 'w');
  }

  lemma UsVersusThemMessagingHas(c: string)
    requires c == Concepts[7]
    ensures Contains(c, "versus")
  {
    assert c == "us " + "versus" + " them messaging";
    ContainsInfix("us ", "versus", " them messaging");
  }

  lemma ClassifyUsVersusThemMessaging(c: string)
    requires c == Concepts[7]
    ensures Categorize(c) == Conflict
  {
    assert c == "us versus them messaging";
    UsVersusThemMessagingLowerCase(c);
    UsVersusThemMessagingLacksAuthority(c);
    UsVersusThemMessagingLacksUniform(c);
    UsVersusThemMessagingLacksEmotional(c);
    UsVersusThemMessagingLacksManipulation(c);
    UsVersusThemMessagingLacksFear(c);
    UsVersusThemMessagingLacksPatriotic(c);
    UsVersusThemMessagingLacksFlag(c);
    UsVersusThemMessagingLacksLeader(c);
    UsVersusThemMessagingLacksWorship(c);
    UsVersusThemMessagingHas(c);
  }

  lemma CallToActionPropagandaLowerCase(c: string)
    requires c == "call to action propaganda"
    ensures Lower(c) == c
  {
  }

  lemma CallToActionPropagandaLacksAuthority(c: string)
    requires c == "call to action propaganda"
    ensures !Contains(c, "authority")
  {
    NotContainsByChar(c, "authority", 'u');
  }

  lemma CallToActionPropagandaLacksUniform(c: string)
    requires c == "call to action propaganda"
    ensures !Contains(c, "uniform")
  {
    NotContainsByChar(c, "uniform", 'u');
  }

  lemma CallToActionPropagandaLacksEmotional(c: string)
    requires c == "call to action propaganda"
    ensures !Contains(c, "emotional")
  {
    NotContainsByChar(c, "emotional", 'e');
  }

  lemma CallToActionPropagandaLacksManipulation(c: string)
    requires c == "call to action propaganda"
    ensures !Contains(c, "manipulation")
  {
    NotContainsByChar(c, "manipulation", 'm');
  }

  lemma CallToActionPropagandaLacksFear(c: string)
    requires c == "call to action propaganda"
    ensures !Contains(c, "fear")
  {
    NotContainsByChar(c, "fear", 'f');
  }

  lemma CallToActionPropagandaLacksFlag(c: string)
    requires c == "call to action propaganda"
    ensures !Contains(c, "flag")
  {
    NotContainsByChar(c, "flag", 'f');
  }

  lemma CallToActionPropagandaLacksLeader(c: string)
    requires c == "call to action propaganda"
    ensures !Contains(c, "leader")
  {
    NotContainsByChar(c, "leader", 'e');
  }

  lemma CallToActionPropagandaLacksWorship(c: string)
    requires c == "call to action propaganda"
    ensures !Contains(c, "worship")
  {
    NotContainsByChar(c, "worship", 'w');
  }

  lemma CallToActionPropagandaLacksWar(c: string)
    requires c == "call to action propaganda"
    ensures !Contains(c, "war")
  {
    NotContainsByChar(c, "war", 'w');
  }

  lemma CallToActionPropagandaLacksVersus(c: string)
    requires c == "call to action propaganda"
    ensures !Contains(c, "versus")
  {
    NotContainsByChar(c, "versus", 'v');
  }

  lemma CallToActionPropagandaLacksPatriotic(c: string)
    requires c == "call" + " " + "to" + " " + "action" + " " + "propaganda"
    ensures !Contains(c, "patriotic")
  {
    ContainsInWords("call" + " " + "to" + " " + "action", "propaganda", "patriotic");
    ContainsInWords("call" + " " + "to", "action", "patriotic");
    ContainsInWords("call", "to", "patriotic");
    NotContainsLonger("call", "patriotic");
    NotContainsLonger("to", "patriotic");
    NotContainsLonger("action", "patriotic");
    NotContainsByChar("propaganda", "patriotic", 't');
  }

  lemma CallToActionPropagandaHas(c: string)
    requires c == Concepts[8]
    ensures Contains(c, "action")
  {
    assert c == "call to " + "action" + " propaganda";
    ContainsInfix("call to ", "action", " propaganda");
  }

  lemma ClassifyCallToActionPropaganda(c: string)
    requires c == Concepts[8]
    ensures Categorize(c) == Action
  {
    assert c == "call to action propaganda";
    assert c == "call" + " " + "to" + " " + "action" + " " + "propaganda";
    CallToActionPropagandaLowerCase(c);
    CallToActionPropagandaLacksAuthority(c);
    CallToActionPropagandaLacksUniform(c);
    CallToActionPropagandaLacksEmotional(c);
    CallToActionPropagandaLacksManipulation(c);
    CallToActionPropagandaLacksFear(c);
    CallToActionPropagandaLacksFlag(c);
    CallToActionPropagandaLacksLeader(c);
    CallToActionPropagandaLacksWorship(c);
    CallToActionPropagandaLacksWar(c);
    CallToActionPropagandaLacksVersus(c);
    CallToActionPropagandaLacksPatriotic(c);
    CallToActionPropagandaHas(c);
  }

  lemma HistoricalPropagandaArtLowerCase(c: string)
    requires c == "historical propaganda art"
    ensures Lower(c) == c
  {
  }

  lemma HistoricalPropagandaArtLacksAuthority(c: string)
    requires c == "historical propaganda art"
    ensures !Contains(c, "authority")
  {
    NotContainsByChar(c, "authority", 'u');
  }

  lemma HistoricalPropagandaArtLacksUniform(c: string)
    requires c == "historical propaganda art"
    ensures !Contains(c, "uniform")
  {
    NotContainsByChar(c, "uniform", 'u');
  }

  lemma HistoricalPropagandaArtLacksEmotional(c: string)
    requires c == "historical propaganda art"
    ensures !Contains(c, "emotional")
  {
    NotContainsByChar(c, "emotional", 'e');
  }

  lemma HistoricalPropagandaArtLacksManipulation(c: string)
    requires c == "historical propaganda art"
    ensures !Contains(c, "manipulation")
  {
    NotContainsByChar(c, "manipulation", 'm');
  }

  lemma HistoricalPropagandaArtLacksFear(c: string)
    requires c == "historical propaganda art"
    ensures !Contains(c, "fear")
  {
    NotContainsByChar(c, "fear", 'f');
  }

  lemma HistoricalPropagandaArtLacksFlag(c: string)
    requires c == "historical propaganda art"
    ensures !Contains(c, "flag")
  {
    NotContainsByChar(c, "flag", 'f');
  }

  lemma HistoricalPropagandaArtLacksLeader(c: string)
    requires c == "historical propaganda art"
    ensures !Contains(c, "leader")
  {
    NotContainsByChar(c, "leader", 'e');
  }

  lemma HistoricalPropagandaArtLacksWorship(c: string)
    requires c == "historical propaganda art"
    ensures !Contains(c, "worship")
  {
    NotContainsByChar(c, "worship", 'w');
  }

  lemma HistoricalPropagandaArtLacksWar(c: string)
    requires c == "historical propaganda art"
    ensures !Contains(c, "war")
  {
    NotContainsByChar(c, "war", 'w');
  }

  lemma HistoricalPropagandaArtLacksVersus(c: string)
    requires c == "historical propaganda art"
    ensures !Contains(c, "versus")
  {
    NotContainsByChar(c, "versus", 'v');
  }

  lemma HistoricalPropagandaArtLacksPatriotic(c: string)
    requires c == "historical" + " " + "propaganda" + " " + "art"
    ensures !Contains(c, "patriotic")
  {
    ContainsInWords("historical" + " " + "propaganda", "art", "patriotic");
    ContainsInWords("historical", "propaganda", "patriotic");
    NotContainsByChar("historical", "patriotic", 'p');
    NotContainsByChar("propaganda", "patriotic", 't');
    NotContainsLonger("art", "patriotic");
  }

  lemma HistoricalPropagandaArtLacksAction(c: string)
    requires c == "historical" + " " + "propaganda" + " " + "art"
    ensures !Contains(c, "action")
  {
    ContainsInWords("historical" + " " + "propaganda", "art", "action");
    ContainsInWords("historical", "propaganda", "action");
    NotContainsByChar("historical", "action", 'n');
    NotContainsByChar("propaganda", "action", 'c');
    NotContainsLonger("art", "action");
  }

  lemma HistoricalPropagandaArtLacksCall(c: string)
    requires c == "historical" + " " + "propaganda" + " " + "art"
    ensures !Contains(c, "call")
  {
    ContainsInWords("historical" + " " + "propaganda", "art", "call");
    ContainsInWords("historical", "propaganda", "call");
    NotContainsByFirst("historical", "call");
    NotContainsByChar("propaganda", "call", 'c');
    NotContainsLonger("art", "call");
  }

  lemma HistoricalPropagandaArtHas(c: string)
    requires c == Concepts[9]
    ensures Contains(c, "historical")
  {
    assert c == "" + "historical" + " propaganda art";
    ContainsInfix("", "historical", " propaganda art");
  }

  lemma ClassifyHistoricalPropagandaArt(c: string)
    requires c == Concepts[9]
    ensures Categorize(c) == Historical
  {
    assert c == "historical propaganda art";
    assert c == "historical" + " " + "propaganda" + " " + "art";
    HistoricalPropagandaArtLowerCase(c);
    HistoricalPropagandaArtLacksAuthority(c);
    HistoricalPropagandaArtLacksUniform(c);
    HistoricalPropagandaArtLacksEmotional(c);
    HistoricalPropagandaArtLacksManipulation(c);
    HistoricalPropagandaArtLacksFear(c);
    HistoricalPropagandaArtLacksFlag(c);
    HistoricalPropagandaArtLacksLeader(c);
    HistoricalPropagandaArtLacksWorship(c);
    HistoricalPropagandaArtLacksWar(c);
    HistoricalPropagandaArtLacksVersus(c);
    HistoricalPropagandaArtLacksPatriotic(c);
    HistoricalPropagandaArtLacksAction(c);
    HistoricalPropagandaArtLacksCall(c);
    HistoricalPropagandaArtHas(c);
  }

  lemma WarPropagandaPosterLowerCase(c: string)
    requires c == "war propaganda poster"
    ensures Lower(c) == c
  {
  }

  lemma WarPropagandaPosterLacksAuthority(c: string)
    requires c == "war propaganda poster"
    ensures !Contains(c, "authority")
  {
    NotContainsByChar(c, "authority", 'u');
  }

  lemma WarPropagandaPosterLacksUniform(c: string)
    requires c == "war propaganda poster"
    ensures !Contains(c, "uniform")
  {
    NotContainsByChar(c, "uniform", 'u');
  }

  lemma WarPropagandaPosterLacksEmotional(c: string)
    requires c == "war propaganda poster"
    ensures !Contains(c, "emotional")
  {
    NotContainsByChar(c, "emotional", 'm');
  }

  lemma WarPropagandaPosterLacksManipulation(c: string)
    requires c == "war propaganda poster"
    ensures !Contains(c, "manipulation")
  {
    NotContainsByChar(c, "manipulation", 'm');
  }

  lemma WarPropagandaPosterLacksFear(c: string)
    requires c == "war propaganda poster"
    ensures !Contains(c, "fear")
  {
    NotContainsByChar(c, "fear", 'f');
  }

  lemma WarPropagandaPosterLacksPatriotic(c: string)
    requires c == "war propaganda poster"
    ensures !Contains(c, "patriotic")
  {
    NotContainsByChar(c, "patriotic", 'i');
  }

  lemma WarPropagandaPosterLacksFlag(c: string)
    requires c == "war propaganda poster"
    ensures !Contains(c, "flag")
  {
    NotContainsByChar(c, "flag", 'f');
  }

  lemma WarPropagandaPosterLacksLeader(c: string)
    requires c == "war propaganda poster"
    ensures !Contains(c, "leader")
  {
    NotContainsByChar(c, "leader", 'l');
  }

  lemma WarPropagandaPosterLacksWorship(c: string)
    requires c == "war propaganda poster"
    ensures !Contains(c, "worship")
  {
    NotContainsByChar(c, "worship", 'h');
  }

  lemma WarPropagandaPosterHas(c: string)
    requires c == Concepts[10]
    ensures Contains(c, "war")
  {
    assert c == "" + "war" + " propaganda poster";
    ContainsInfix("", "war", " propaganda poster");
  }

  lemma ClassifyWarPropagandaPoster(c: string)
    requires c == Concepts[10]
    ensures Categorize(c) == Conflict
  {
    assert c == "war propaganda poster";
    WarPropagandaPosterLowerCase(c);
    WarPropagandaPosterLacksAuthority(c);
    WarPropagandaPosterLacksUniform(c);
    WarPropagandaPosterLacksEmotional(c);
    WarPropagandaPosterLacksManipulation(c);
    WarPropagandaPosterLacksFear(c);
    WarPropagandaPosterLacksPatriotic(c);
    WarPropagandaPosterLacksFlag(c);
    WarPropagandaPosterLacksLeader(c);
    WarPropagandaPosterLacksWorship(c);
    WarPropagandaPosterHas(c);
  }

  lemma PoliticalCampaignImageryLowerCase(c: string)
    requires c == "political campaign imagery"
    ensures Lower(c) == c
  {
  }

  lemma PoliticalCampaignImageryLacksAuthority(c: string)
    requires c == "political campaign imagery"
    ensures !Contains(c, "authority")
  {
    NotContainsByChar(c, "authority", 'u');
  }

  lemma PoliticalCampaignImageryLacksUniform(c: string)
    requires c == "political campaign imagery"
    ensures !Contains(c, "uniform")
  {
    NotContainsByChar(c, "uniform", 'u');
  }

  lemma PoliticalCampaignImageryLacksManipulation(c: string)
    requires c == "political campaign imagery"
    ensures !Contains(c, "manipulation")
  {
    NotContainsByChar(c, "manipulation", 'u');
  }

  lemma PoliticalCampaignImageryLacksFear(c: string)
    requires c == "political campaign imagery"
    ensures !Contains(c, "fear")
  {
    NotContainsByChar(c, "fear", 'f');
  }

  lemma PoliticalCampaignImageryLacksFlag(c: string)
    requires c == "political campaign imagery"
    ensures !Contains(c, "flag")
  {
    NotContainsByChar(c, "flag", 'f');
  }

  lemma PoliticalCampaignImageryLacksLeader(c: string)
    requires c == "political campaign imagery"
    ensures !Contains(c, "leader")
  {
    NotContainsByChar(c, "leader", 'd');
  }

  lemma PoliticalCampaignImageryLacksWorship(c: string)
    requires c == "political campaign imagery"
    ensures !Contains(c, "worship")
  {
    NotContainsByChar(c, "worship", 'w');
  }

  lemma PoliticalCampaignImageryLacksWar(c: string)
    requires c == "political campaign imagery"
    ensures !Contains(c, "war")
  {
    NotContainsByChar(c, "war", 'w');
  }

  lemma PoliticalCampaignImageryLacksVersus(c: string)
    requires c == "political campaign imagery"
    ensures !Contains(c, "versus")
  {
    NotContainsByChar(c, "versus", 'v');
  }

  lemma PoliticalCampaignImageryLacksHistorical(c: string)
    requires c == "political campaign imagery"
    ensures !Contains(c, "historical")
  {
    NotContainsByChar(c, "historical", 'h');
  }

  lemma PoliticalCampaignImageryLacksEmotional(c: string)
    requires c == "political" + " " + "campaign" + " " + "imagery"
    ensures !Contains(c, "emotional")
  {
    ContainsInWords("political" + " " + "campaign", "imagery", "emotional");
    ContainsInWords("political", "campaign", "emotional");
    NotContainsByChar("political", "emotional", 'e');
    NotContainsLonger("campaign", "emotional");
    NotContainsLonger("imagery", "emotional");
  }

  lemma PoliticalCampaignImageryLacksPatriotic(c: string)
    requires c == "political" + " " + "campaign" + " " + "imagery"
    ensures !Contains(c, "patriotic")
  {
    ContainsInWords("political" + " " + "campaign", "imagery", "patriotic");
    ContainsInWords("political", "campaign", "patriotic");
    NotContainsByChar("political", "patriotic", 'r');
    NotContainsLonger("campaign", "patriotic");
    NotContainsLonger("imagery", "patriotic");
  }

  lemma PoliticalCampaignImageryLacksAction(c: string)
    requires c == "political" + " " + "campaign" + " " + "imagery"
    ensures !Contains(c, "action")
  {
    ContainsInWords("political" + " " + "campaign", "imagery", "action");
    ContainsInWords("political", "campaign", "action");
    NotContainsByChar("political", "action", 'n');
    NotContainsByChar("campaign", "action", 't');
    NotContainsByChar("imagery", "action", 'c');
  }

  lemma PoliticalCampaignImageryLacksCall(c: string)
    requires c == "political" + " " + "campaign" + " " + "imagery"
    ensures !Contains(c, "call")
  {
    ContainsInWords("political" + " " + "campaign", "imagery", "call");
    ContainsInWords("political", "campaign", "call");
    NotContainsByFirst("political", "call");
    NotContainsByChar("campaign", "call", 'l');
    NotContainsByChar("imagery", "call", 'c');
  }

  lemma ClassifyPoliticalCampaignImagery(c: string)
    requires c == Concepts[11]
    ensures Categorize(c) == General
  {
    assert c == "political campaign imagery";
    assert c == "political" + " " + "campaign" + " " + "imagery";
    PoliticalCampaignImageryLowerCase(c);
    PoliticalCampaignImageryLacksAuthority(c);
    PoliticalCampaignImageryLacksUniform(c);
    PoliticalCampaignImageryLacksManipulation(c);
    PoliticalCampaignImageryLacksFear(c);
    PoliticalCampaignImageryLacksFlag(c);
    PoliticalCampaignImageryLacksLeader(c);
    PoliticalCampaignImageryLacksWorship(c);
    PoliticalCampaignImageryLacksWar(c);
    PoliticalCampaignImageryLacksVersus(c);
    PoliticalCampaignImageryLacksHistorical(c);
    PoliticalCampaignImageryLacksEmotional(c);
    PoliticalCampaignImageryLacksPatriotic(c);
    PoliticalCampaignImageryLacksAction(c);
    PoliticalCampaignImageryLacksCall(c);
  }

  /** The classification of the twelve catalog concepts. */
  lemma CatalogCategories()
    ensures Categorize(Concepts[0]) == Authority
    ensures Categorize(Concepts[1]) == General
    ensures Categorize(Concepts[2]) == Patriotic
    ensures Categorize(Concepts[3]) == Emotional
    ensures Categorize(Concepts[4]) == Fear
    ensures Categorize(Concepts[5]) == Patriotic
    ensures Categorize(Concepts[6]) == Leader
    ensures Categorize(Concepts[7]) == Conflict
    ensures Categorize(Concepts[8]) == Action
    ensures Categorize(Concepts[9]) == Historical
    ensures Categorize(Concepts[10]) == Conflict
    ensures Categorize(Concepts[11]) == General
  {
    ClassifyAuthorityFigureInUniform(Concepts[0]);
    ClassifyMilitaryPropagandaPoster(Concepts[1]);
    ClassifyPoliticalRallyWithFlags(Concepts[2]);
    ClassifyEmotionalManipulationImagery(Concepts[3]);
    ClassifyFearInducingPropaganda(Concepts[4]);
    ClassifyPatrioticSymbolsAndColors(Concepts[5]);
    ClassifyLeaderWorshipImagery(Concepts[6]);
    ClassifyUsVersusThemMessaging(Concepts[7]);
    ClassifyCallToActionPropaganda(Concepts[8]);
    ClassifyHistoricalPropagandaArt(Concepts[9]);
    ClassifyWarPropagandaPoster(Concepts[10]);
    ClassifyPoliticalCampaignImagery(Concepts[11]);
  }
}
