/**
 * The fixed texts the terminal types: the welcome lines, the static command
 * replies, the progress notices and the aggregators' own error lines.
 * Non-ASCII characters are written as `\U{...}` escapes; `Rule(n)` is a run
 * of `n` heavy horizontal box-drawing characters.
 */
module Replies {

  function Rule(n: nat): (r: string)
    ensures |r| == n
  {
    seq(n, _ => '\U{2501}')
  }

  /** The three lines the transcript starts with. */
  const Welcome: seq<string> := [
    "\U{1F916} Ledger AI: Ask me anything about XRP Ledger",
    "",
    "\U{2139}\U{FE0F} Type 'help' to see available commands"
  ]

  const HelpText: string :=
    "\n\U{1F4DA} Available Commands\n" + Rule(18) + "\n\n"
    + "\U{2753}  help - Show this help message\n"
    + "\U{1F4CB}  ca (or address) - Show contract address for Ledger AI\n"
    + "\U{1F426}  twitter - Get Twitter link for Ledger AI\n"
    + "\U{1F4AC}  telegram - Get Telegram link for Ledger AI\n"
    + "\U{1F9F9}  clear (or cls) - Clear terminal\n"
    + "\U{1F48E}  addressinfo <address-to-check> - Simple XRP address lookup\n\n"
    + "\U{1FA99}  <address-to-scan> - Much detailed XRP address lookup\n\n"
    + "\U{1F4A1} Any other input will be sent to AI for a response.\n" + Rule(38)

  /** The `ca`/`address` reply around the terminal's current contract address. */
  function ContractAddressText(address: string): string {
    "\n\U{1F4CB} Contract Address\n" + Rule(17) + "\n\n\U{1F511} " + address + "\n" + Rule(17)
  }

  const TelegramText: string :=
    "\n\U{1F4AC} Telegram Community\n" + Rule(18) + "\n\n"
    + "\U{279C} Join us: https://t.me/LedgerAIXRP\n" + Rule(18)

  const TwitterText: string :=
    "\n\U{1F426} Twitter Profile\n" + Rule(15) + "\n\n"
    + "\U{279C} Follow us: https://x.com/ledgeraionxrp\n" + Rule(18)

  const AddressInfoUsageText: string :=
    "\n\U{274C} Missing Address\n" + Rule(15) + "\n\n"
    + "Usage: xrp <address>\n"
    + "Example: xrp rHb9CJAWyB4rj91VRWn96DkukG4bwdtyTh\n" + Rule(36)

  const ScanUsageText: string :=
    "\n\U{274C} Missing Address\n" + Rule(15) + "\n\n"
    + "Usage: token <issuer_address>\n"
    + "Example: token rHEwCxE7GHjwXEpZwPSHLqh4Qf1N6C8M9N\n\n"
    + "Note: First-time users need to request access at:\n"
    + "https://cors-anywhere.herokuapp.com/corsdemo\n" + Rule(30)

  const FetchingAccountText: string := "\U{1F50D} Fetching XRP address information..."
  const FetchingTokenText: string := "\U{1F50D} Fetching token information..."
  const ScanningText: string := "\U{1F50D} Scanning XRP address..."
  const ThinkingEmojiText: string := "\U{1F914} Thinking..."
  const ThinkingText: string := "Thinking..."
  // One text in the source; written in two literal halves because the verifier
  // can check the characters of a literal this long only half by half.
  const ApologyText: string := "Sorry, I couldn't process " + "your request. Please try again."

  const InvalidAccountText: string :=
    "\U{274C} Invalid XRP address format. XRP addresses start with 'r' and are 25-34 characters long."
  const InvalidIssuerText: string :=
    "\U{274C} Invalid issuer address format. Addresses start with 'r' and are 25-34 characters long."
  const IssuerFailedText: string := "\U{274C} Error fetching contract information. Please try again."
  const NoTokensText: string := "\U{274C} No tokens found for this issuer address."

  function LedgerErrorText(message: string): string {
    "\U{274C} Error: " + message
  }
}
