/** The opponent abbreviation table and the comparison of that table with the
    opponents found in the federation's fixture lists (teams.py). The scraper is
    replaced by its result: one list of opponent names per scraped team. */
module Teams {
  import opened Strings
  import opened Ordering

  /** Abbreviation used in the fixture files -> full club name. */
  const OPPONENTS: map<string, string> := map[
    "AIB" := "EHC Bad Aibling",
    "BUC" := "ESV Buchloe",
    "BWH" := "Bad Wörishofen",
    "EAS" := "TSV Schongau",
    "ERCL" := "ERC Lechbruck",
    "EVK" := "EV Königsbrunn",
    "FFB" := "EV Fürstenfeldbruck",
    "HCL2" := "HC Landsberg II",
    "KEM" := "ESC Kempten",
    "MEM" := "ECDC Memmingen",
    "PEMI" := "Peißenberg Miners",
    "PFR" := "EV Pfronten",
    "RBM2" := "Rookie Bulls München II",
    "SGGZ" := "SG Götzens / Zirl",
    "SGLP2" := "SG Lechbr. / Peiting II",
    "SGTBW" := "SG Türkh. / Wörish.",
    "SGUB" := "SG Ulm / Burgau",
    "SON" := "ERC Sonthofen",
    "ULM" := "VfE Ulm / Neu-Ulm"]

  /** Team -> the pair of ids under which the federation lists its games. */
  const DEB_IDS: map<string, (int, int)> := map[
    "U17" := (39231, 18560), "U15" := (14783, 18748), "U13" := (39458, 18778)]

  /** The keys of `DEB_IDS` in the dict's iteration (insertion) order. */
  const DEB_TEAMS: seq<string> := ["U17", "U15", "U13"]

  /** Only U17, U15 and U13 are scraped, each once. */
  lemma DebTeamsAreTheKeys()
    ensures DEB_IDS.Keys == {"U17", "U15", "U13"}
    ensures forall t :: t in DEB_TEAMS <==> t in DEB_IDS
    ensures |DEB_TEAMS| == |DEB_IDS| == 3
  {
    assert DEB_IDS.Keys == {"U17", "U15", "U13"};
  }

  /** `g.lstrip("@ ")`: an opponent's name without the away marker and blanks. */
  function Normalise(g: string): (r: string)
    ensures r == [] || (r[0] != '@' && r[0] != ' ')
    ensures exists k ::
      && 0 <= k <= |g| && r == g[k..]
      && forall i :: 0 <= i < k ==> g[i] == '@' || g[i] == ' '
  {
    var r := LStrip(g, {'@', ' '});
    LStripSpec(g, {'@', ' '});
    r
  }

  /** The normalised opponents of one scraped team. */
  function Opponents(games: seq<string>): set<string> {
    set g | g in games :: Normalise(g)
  }

  /** The union of the normalised opponents of the first `|scraped|` teams. */
  function ScrapedTeams(scraped: seq<seq<string>>): (r: set<string>)
    ensures forall x :: x in r ==> x == [] || (x[0] != '@' && x[0] != ' ')
    decreases |scraped|
  {
    if scraped == [] then {}
    else ScrapedTeams(scraped[..|scraped| - 1]) + Opponents(scraped[|scraped| - 1])
  }

  /** A name is collected exactly when it is the normalisation of some scraped opponent. */
  lemma {:induction false} ScrapedTeamsMembers(scraped: seq<seq<string>>, x: string)
    ensures x in ScrapedTeams(scraped) <==>
      exists i, j :: 0 <= i < |scraped| && 0 <= j < |scraped[i]| && x == Normalise(scraped[i][j])
    decreases |scraped|
  {
    if scraped != [] {
      var n := |scraped| - 1;
      var init := scraped[..n];
      ScrapedTeamsMembers(init, x);
      if x in ScrapedTeams(scraped) {
        if x in ScrapedTeams(init) {
          var i, j :| 0 <= i < |init| && 0 <= j < |init[i]| && x == Normalise(init[i][j]);
          assert scraped[i] == init[i];
        } else {
          var g :| g in scraped[n] && x == Normalise(g);
          var j :| 0 <= j < |scraped[n]| && scraped[n][j] == g;
        }
      } else {
        forall i, j | 0 <= i < |scraped| && 0 <= j < |scraped[i]|
          ensures x != Normalise(scraped[i][j])
        {
          if i < n {
            assert scraped[i] == init[i];
          } else {
            assert scraped[i][j] in scraped[n];
          }
        }
      }
    }
  }

  /** The `__main__` block: collects the normalised opponents of every team in
      `DEB_IDS` (`scraped[k]` being the opponent column scraped for `DEB_TEAMS[k]`)
      and returns the two printed lists. */
  method Reconcile(scraped: seq<seq<string>>)
    returns (teams: set<string>, canBeRemoved: seq<string>, missing: seq<string>)
    requires |scraped| == |DEB_TEAMS|
    ensures teams == ScrapedTeams(scraped)
    ensures StrictlySorted(canBeRemoved) && StrictlySorted(missing)
    ensures forall x :: x in canBeRemoved <==> x in OPPONENTS && x !in teams
    ensures forall x :: x in missing <==> x in teams && x !in OPPONENTS
    ensures canBeRemoved == Sorted(OPPONENTS.Keys - teams)
    ensures missing == Sorted(teams - OPPONENTS.Keys)
    // The lists are disjoint, and the missing names plus the known collected
    // names make up all collected names.
    ensures forall x :: x in canBeRemoved ==> x !in missing
    ensures forall x :: x in teams <==> x in missing || x in OPPONENTS.Keys * teams
  {
    teams := {};
    for k := 0 to |DEB_TEAMS|
      invariant teams == ScrapedTeams(scraped[..k])
    {
      var data := scraped[k];
      teams := teams + set g | g in data :: Normalise(g);
      assert scraped[..k + 1][..k] == scraped[..k];
    }
    assert scraped[..|DEB_TEAMS|] == scraped;
    canBeRemoved := Sorted(OPPONENTS.Keys - teams);
    missing := Sorted(teams - OPPONENTS.Keys);
  }
}
