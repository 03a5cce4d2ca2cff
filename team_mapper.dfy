/** Team-name standardisation: an alias table lookup that falls back to the
    name itself. The table is a parameter; the bot reads it from a file and
    falls back to `DefaultMappings`. */
module TeamMapper {

  /** The built-in alias table used when no mappings file can be read. */
  const DefaultMappings: map<string, string> := map["Kansas St" := "Kansas State"]

  /** The canonical spelling of `name`: its alias when the table has one,
      otherwise `name` itself. */
  function StandardizeTeamName(table: map<string, string>, name: string): (r: string)
    ensures name in table ==> r == table[name]
    ensures name !in table ==> r == name
    ensures r == name || r in table.Values
  {
    if name in table then table[name] else name
  }

  /** Two names denote the same team when their canonical spellings agree. */
  function AreSameTeams(table: map<string, string>, team1: string, team2: string): (r: bool)
    ensures r <==> StandardizeTeamName(table, team1) == StandardizeTeamName(table, team2)
    ensures team1 == team2 ==> r
  {
    StandardizeTeamName(table, team1) == StandardizeTeamName(table, team2)
  }

  /** A second entry point that answers exactly as `StandardizeTeamName`. */
  function GetStandardizedName(table: map<string, string>, name: string): (r: string)
    ensures r == StandardizeTeamName(table, name)
    ensures name !in table ==> r == name
  {
    StandardizeTeamName(table, name)
  }

  lemma AreSameTeamsSymmetric(table: map<string, string>, a: string, b: string)
    ensures AreSameTeams(table, a, b) == AreSameTeams(table, b, a)
  {
  }

  lemma AreSameTeamsTransitive(table: map<string, string>, a: string, b: string, c: string)
    requires AreSameTeams(table, a, b) && AreSameTeams(table, b, c)
    ensures AreSameTeams(table, a, c)
  {
  }

  /** No alias leads to a name that is itself an alias for something else. */
  ghost predicate NoChains(table: map<string, string>)
  {
    forall k :: k in table && table[k] in table ==> table[table[k]] == table[k]
  }

  /** Standardising twice is standardising once when the table has no chains. */
  lemma StandardizeIdempotent(table: map<string, string>, name: string)
    requires NoChains(table)
    ensures StandardizeTeamName(table, StandardizeTeamName(table, name))
         == StandardizeTeamName(table, name)
  {
    if name in table {
      assert table[name] in table ==> table[table[name]] == table[name];
    }
  }

  /** Without the no-chain condition idempotence fails: a two-step chain. */
  lemma StandardizeNotIdempotentWithChain()
    ensures var t := map["a" := "b", "b" := "c"];
      StandardizeTeamName(t, StandardizeTeamName(t, "a")) != StandardizeTeamName(t, "a")
  {
    var t := map["a" := "b", "b" := "c"];
    assert StandardizeTeamName(t, "a") == "b";
    assert StandardizeTeamName(t, "b") == "c";
    assert "b" != "c";
  }

  /** The default table is chain-free, identifies "Kansas St" with
      "Kansas State", and leaves every other name as it is. */
  lemma DefaultMappingsFacts(name: string)
    ensures NoChains(DefaultMappings)
    ensures AreSameTeams(DefaultMappings, "Kansas St", "Kansas State")
    ensures name != "Kansas St" ==> StandardizeTeamName(DefaultMappings, name) == name
  {
    assert "Kansas State" != "Kansas St" by {
      assert |"Kansas State"| != |"Kansas St"|;
    }
    assert "Kansas State" !in DefaultMappings;
  }
}
