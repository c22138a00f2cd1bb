/**
 * The stage-name lookup `STAGE_MAP.get(stage, f"Unknown({stage})")` of
 * src/pysleep/hypnogram_report.py. The codes and names of STAGE_MAP come
 * from the label module, which is not part of this model: the map is a
 * parameter, and `ValidStageMap` is all that is required of it.
 */
module Stages {
  import opened Text

  /** STAGE_MAP: the display name of each known stage code. */
  type StageMap = map<int, string>

  predicate HasUnknownPrefix(name: string)
  {
    |name| >= 8 && name[..8] == "Unknown("
  }

  /** One name per code, and no known name looks like an "Unknown(...)" name. */
  predicate ValidStageMap(m: StageMap)
  {
    && (forall a, b :: a in m && b in m && m[a] == m[b] ==> a == b)
    && (forall c :: c in m ==> !HasUnknownPrefix(m[c]))
  }

  /** The display name of a stage code. */
  function StageName(m: StageMap, code: int): (name: string)
    ensures code in m ==> name == m[code]
    ensures code !in m ==> HasUnknownPrefix(name)
  {
    if code in m then m[code] else "Unknown(" + IntToString(code) + ")"
  }

  /** An unmapped code's name is "Unknown(" then the code in decimal then ")". */
  lemma StageNameUnknown(m: StageMap, code: int)
    requires code !in m
    ensures var name := StageName(m, code);
      && HasUnknownPrefix(name) && |name| >= 10
      && name[8..|name| - 1] == IntToString(code) && name[|name| - 1] == ')'
  {
    var name := StageName(m, code);
    assert name[8..|name| - 1] == IntToString(code);
  }

  /**
   * Distinct codes get distinct names; in particular every unmapped code
   * gets its own "Unknown(<code>)" name.
   */
  lemma StageNameInjective(m: StageMap, a: int, b: int)
    requires ValidStageMap(m)
    ensures StageName(m, a) == StageName(m, b) <==> a == b
  {
    if a !in m && b !in m && StageName(m, a) == StageName(m, b) {
      StageNameUnknown(m, a);
      StageNameUnknown(m, b);
      IntToStringInjective(a, b);
    } else if a in m && b !in m {
      StageNameUnknown(m, b);
    } else if a !in m && b in m {
      StageNameUnknown(m, a);
    }
  }
}
