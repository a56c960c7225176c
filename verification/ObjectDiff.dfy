// The printer and the diff together: what the debugger reports when a watched object changes
// (e2e/pkg/debug/diff.go over the lines of e2e/pkg/debug/yaml.go).
module ObjectDiff {
  import opened YamlText
  import opened Yaml
  import opened YamlReader
  import Diff

  /** The report is empty exactly when the object did not change. */
  lemma ReportedIffChanged(
    isFloat: string -> bool, before: map<string, Value>, after: map<string, Value>, path: nat -> string)
    requires FloatSyntax(isFloat) && CleanKeys(Map(before)) && CleanKeys(Map(after))
    ensures var a, b := YamlLines(isFloat, before), YamlLines(isFloat, after);
            Diff.Rendered(Diff.Changes(Diff.Opcodes(a, b)), a, b, path, "") == [] <==> before == after
  {
    Diff.UnifiedDiffReports(YamlLines(isFloat, before), YamlLines(isFloat, after), path);
    LinesEqualIffObjectsEqual(isFloat, before, after);
  }
}
