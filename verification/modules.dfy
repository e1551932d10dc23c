/** The catalog of training modules. */
module Modules {
  import opened Strings

  datatype ModuleData = ModuleData(id: string, title: string, level: string, href: string)

  const MODULES: seq<ModuleData> := [
    ModuleData("afterimage", "Afterimage Burn", "Level 1", "/training/afterimage"),
    ModuleData("pareidolia", "Pareidolia", "Level 1", "/training/pareidolia"),
    ModuleData("echo", "Echo-Location", "Level 1", "/training/echo"),
    ModuleData("velocity", "Velocity Reading", "Level 1", "/training/velocity"),
    ModuleData("tuner", "Sensory Tuner", "Level 2", "/training/tuner"),
    ModuleData("synesthesia", "Synesthesia Tuner", "Level 2", "/training/synesthesia"),
    ModuleData("drawing", "Blind Drawing", "Level 2", "/training/drawing"),
    ModuleData("surface", "Surface Scanner", "Level 2", "/training/material"),
    ModuleData("face", "Face Studio", "Level 2", "/training/face"),
    ModuleData("abacus", "Mental Abacus", "Level 2", "/training/abacus"),
    ModuleData("rotation", "Mental Rotation", "Level 2+", "/training/rotation"),
    ModuleData("sensory-bridging", "Sensory Bridging", "Level 3", "/training/sensory"),
    ModuleData("screen-access", "Screen Access", "Level 3", "/training/screen-access"),
    ModuleData("motion", "Relational Motion", "Level 3", "/training/motion"),
    ModuleData("projection", "Prophantasic Projection", "Level 4", "/training/projection"),
    ModuleData("memory", "Episodic Recall", "Level 4", "/training/memory")
  ]

  predicate DistinctIds(ms: seq<ModuleData>) {
    forall i, j :: 0 <= i < j < |ms| ==> ms[i].id != ms[j].id
  }

  /** Sixteen modules with pairwise different ids. */
  lemma ModulesWellFormed()
    ensures |MODULES| == 16
    ensures DistinctIds(MODULES)
  {
    var m := MODULES;
    var prints := [Fingerprint(m[0].id), Fingerprint(m[1].id), Fingerprint(m[2].id), Fingerprint(m[3].id),
      Fingerprint(m[4].id), Fingerprint(m[5].id), Fingerprint(m[6].id), Fingerprint(m[7].id),
      Fingerprint(m[8].id), Fingerprint(m[9].id), Fingerprint(m[10].id), Fingerprint(m[11].id),
      Fingerprint(m[12].id), Fingerprint(m[13].id), Fingerprint(m[14].id), Fingerprint(m[15].id)];
    assert forall i, j :: 0 <= i < j < |prints| ==> prints[i] != prints[j];
    forall i, j | 0 <= i < j < |m| ensures m[i].id != m[j].id {
      assert Fingerprint(m[i].id) != Fingerprint(m[j].id);
    }
  }
}
