/** Skill definitions, their metadata and scored results. */
module SkillModel {

  datatype SkillMetadata = SkillMetadata(
    identifier: string, displayName: string, description: string, keywords: seq<string>, category: string,
    schemaVersion: int)

  datatype SkillDefinition = SkillDefinition(metadata: SkillMetadata, instructions: string)

  datatype RetrievalResult = RetrievalResult(meta: SkillMetadata, score: real)
}
