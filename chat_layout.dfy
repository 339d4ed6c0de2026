/**
 * The home layout (src/pages/home/ChatLayout.js): which sidebar section is
 * active, whether the sidebar is shown, and what the main pane renders.
 * The window width is passed to each handler that reads it.
 */
module ChatLayout {
  /** Below this width the layout is treated as mobile. */
  const NarrowBelow := 950

  /** What the main pane shows: a placeholder text, or the chat list. */
  datatype Content = Placeholder(text: string) | AllChatsList

  /** The sections the sidebar offers (src/components/sidebar/index.js). */
  const SidebarSections: seq<string> := ["search", "settings", "all", "favourites", "archived"]

  /** `renderContent`: each known section has its own placeholder; any other renders the chat list. */
  function RenderContent(section: string): (c: Content)
    ensures c.AllChatsList? <==> section !in SidebarSections
  {
    match section
    case "search" => Placeholder("Search box will be here")
    case "settings" => Placeholder("Settings will be here")
    case "favourites" => Placeholder("Favourites will be here")
    case "archived" => Placeholder("Archived chats will be here")
    case "all" => Placeholder("All chats will be here")
    case _ => AllChatsList
  }

  /** Two different known sections never render the same placeholder. */
  lemma PlaceholdersDistinct(a: string, b: string)
    requires a in SidebarSections && b in SidebarSections && a != b
    ensures RenderContent(a) != RenderContent(b)
  {
  }

  /** No section the sidebar can select renders the chat list, the initial one included. */
  lemma SidebarNeverShowsChatList(i: nat)
    requires i < |SidebarSections|
    ensures RenderContent(SidebarSections[i]).Placeholder?
  {
  }

  class Layout {
    var activeSection: string
    var showSidebar: bool

    constructor (width: int)
      ensures activeSection == "all"
      ensures showSidebar <==> width >= NarrowBelow
    {
      activeSection := "all";
      showSidebar := width >= NarrowBelow;
    }

    method HandleResize(width: int)
      modifies this`showSidebar
      ensures showSidebar <==> width >= NarrowBelow
    {
      if width < NarrowBelow {
        showSidebar := false;
      } else {
        showSidebar := true;
      }
    }

    /** The header's toggle button. */
    method ToggleSidebar()
      modifies this`showSidebar
      ensures showSidebar == !old(showSidebar)
    {
      showSidebar := !showSidebar;
    }

    /** `onSelect`: the section becomes active; on a narrow window the sidebar hides. */
    method Select(section: string, width: int)
      modifies this`activeSection, this`showSidebar
      ensures activeSection == section
      ensures showSidebar == (if width < NarrowBelow then false else old(showSidebar))
    {
      activeSection := section;
      if width < NarrowBelow {
        showSidebar := false;
      }
    }
  }
}
