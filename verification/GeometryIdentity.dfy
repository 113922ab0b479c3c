/** Paths of instantiated geometries and their keys within a scene. */
module GeometryIdentity {
  function AppendPath(parent: string, name: string): string {
    if parent == "" then name else if name == "" then parent else parent + "/" + name
  }

  function GeometryKey(fixture: string, path: string): string {
    if fixture == "" then path else if path == "" then fixture else fixture + "/" + path
  }
}
