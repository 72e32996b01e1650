/** Constants of mcp_nixos/config.py that the modelled code reads. */
module Config {
  import opened Dict

  /** The static channel table used when discovery yields nothing usable. */
  const FallbackChannels: Dict<string, string> := [
    ("unstable", "latest-44-nixos-unstable"),
    ("stable", "latest-44-nixos-25.11"),
    ("25.05", "latest-44-nixos-25.05"),
    ("25.11", "latest-44-nixos-25.11"),
    ("beta", "latest-44-nixos-25.11")
  ]

  /** Source names of the `nix` tool; any other `source` names a flake directory. */
  const KnownSources: set<string> := {
    "nixos", "home-manager", "darwin", "flakes", "flakehub",
    "nixvim", "wiki", "nix-dev", "noogle", "nixhub"
  }

  /** The nix.dev site the documentation links point into. */
  const NixDevBaseUrl: string := "https://nix.dev"

  const DefaultLineLimit: nat := 500
  const MaxLineLimit: nat := 2000
}
