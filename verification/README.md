# Proofs about the compositor

A Dafny model of the parts of this compositor where most can go wrong, with proofs about all their inputs and all
their runs. `dafny verify dfyconfig.toml` checks everything.

The stained-glass desktop (`sg-deskcomp.c`):

- `PaneFill.dfy`: a picture split into panes of glass by a flood fill with a stack of its own.
- `PaneLight.dfy`: the panes' figures, the light's masks, and the box of the screen drawn again.
- `SitePlacement.dfy`: where the sites of the living glass are placed.
- `SiteIndex.dfy`, `CellSearch.dfy`: the sites sorted into squares, and a pixel's two nearest looked for ring by ring.
- `CellRedraw.dfy`: what of the cells is drawn again when the windows change.
- `IconMask.dfy`: the mask of the icons, found at once and kept up in place.
- `WindowTable.dfy`: the stacked table of windows, their ghosts, and who owns what the X server keeps.

The session:

- `SessionProtocol.dfy`: locking, secure prompts, the security screen, Remote Desktop and console shadow as one
  protocol, with what watchers are told (`lock.c`).
- `Compositor.dfy`: the lock, the views and the focus as they are, field by field (`lock.c`, `view.c`, `seat.c`,
  `session_x11.c`, `wayland_app.c`, `elevated.c`), proved to follow that protocol and to keep the session isolated.
- `Clipboard.dfy`: the proxies that carry text between the session and elevated displays (`elevated.c`).
- `KeyStream.dfy`: consumed keys and the held press (`seat.c`).
- `TitleIcon.dfy`: a window's icon in its title bar (`decor.c`; section 5 of the Extended Window Manager Hints).

`Raster.dfy` holds the arithmetic of rows and columns they share.

Code that changes fields or arrays in place is modelled as methods over classes and arrays. Each is proved against a
specification on values, and what the program promises is proved of that specification. What comes from outside (X's
and the kernel's answers, what is under the pointer, whether an animation is wanted) is an argument of the step.

## What the proofs show of the code

Where the code does less than its own words, the model follows the code, and the exact condition is proved with an
input that fails:

- The light's box covers all the light touches for a reach of 2 and more; for 0 or 1 it does not
  (`PaneLight.LitSquareInReachBox`, `PaneLight.ShortReachSpillsOver`). A screen of at least 7 by 7 has such a reach.
- Three rings may miss the nearest site. It is found if and only if some site in the squares searched is at least as
  near as every site outside them (`CellSearch.NearestFoundExactly`); without windows that is always so
  (`SitePlacement.OpenGridFindsBoth`), and in a narrow gap between two windows it is not
  (`SitePlacement.GapFindsNone`).
- Only boxes two spacings about the windows that changed are drawn again. That shows the whole frame if and only if no
  pixel outside them has another colour (`CellRedraw.PartShowsAllExactly`, over runs `CellRedraw.Cells.RenderAll`). A
  window opened above two others leaves a pixel between them wrong (`CellRedraw.OpenedLidMissesAPixel`).
- A consumed press takes its release with it, and what comes during a takeover is dropped. The window's keys are right
  at all times if and only if no release comes whose key has a slot in the table without being down by a consumed
  press, or the other way round, and no press waits whose code is 0
  (`KeyStream.StreamRightThroughoutExactlyWhenClean`, for any events). It is not so for a ninth key held down and for a
  switch to another VT, which leak their release, for a release dropped during a takeover, which swallows a later one,
  and for a held press of code 0 (`NineKeysLeak`, `VTSwitchLeaksARelease`, `DroppedReleaseSwallowsALater`,
  `CodeZeroIsLost`). With no takeover the stream in the end tells as much
  (`KeyStream.StreamIsExpectedExactlyWhenClean`), with one it does not (`KeyStream.TwoWrongsCancel`).
- The icon's rows lie in the title bar just when the caption is at least 16 pixels high, while captions from 12 are
  accepted (`TitleIcon.IconFitsTheBarExactly`, `TitleIcon.LowCaptionRunsOver`).
- REMOTE with a descriptor that is answered with an error keeps the connection if and only if the session was taken
  over already (`Compositor.Server.RemoteCommand`, of the protocol
  `SessionProtocol.RefusedRemoteKeepsConnectionExactly`; `SessionProtocol.RefusedConnectionKept`).
- Ctrl+Alt+Del puts up the security screen with no one to draw it if and only if there are watchers on the list and
  none of them can be reached any more (`Compositor.Server.SasEngage`, `Compositor.UndrawnScreen`).

## Model

| member | source | states |
|---|---|---|
| `PaneFill.Neighbours` | sg-deskcomp.c:1102-1105 | the four bounds tests of the fill name exactly the pixels that share a side with a pixel, none across a row's end |
| `PaneFill.BoundsTests` | sg-deskcomp.c:1102-1105 | the tests as the source makes them give those neighbours, all of them inside the picture |
| `PaneFill.Take` | sg-deskcomp.c:1102-1105 | one test: an untaken glass neighbour gets the pane's number and goes on the stack, which has room; anything else stays |
| `PaneFill.TakeNeighbours` | sg-deskcomp.c:1099-1105 | after the four tests a pixel has no untaken glass neighbour, and the stack grew by just those it had |
| `PaneFill.RoomOnStack` | sg-deskcomp.c:1097-1105 | distinct stacked pixels leave room for one more: the stack never outgrows the picture |
| `PaneFill.FillPane` | sg-deskcomp.c:1095-1106 | one fill gives a pane's number to exactly the glass joined to its first pixel, whatever was filled before; it ends because untaken glass and stack shrink together |
| `PaneFill.FillComplete` | sg-deskcomp.c:1099-1106 | a fill whose stack ran empty has taken the whole pane of its seed |
| `PaneFill.FillPanes` | sg-deskcomp.c:1093-1107 | all panes are filled from their first pixels in row-major order, until the numbers run out; what is left over becomes lead |
| `PaneFill.MakePanes` | sg-deskcomp.c:1086-1107 | pixels share a label just when glass joins them, panes are numbered from 1 by their first pixels, and glass is a pixel whose red, green and blue, three, six and one parts, make 560 or more; the labelling is the exact one of the picture, and the count its number of panes |
| `PaneFill.ByWeights` | sg-deskcomp.c:1087-1091 | a pixel is glass just when three parts red, six green and one blue are 560 or more in all |
| `PaneFill.JoinedIsLeast` | sg-deskcomp.c:1099-1105 | what is joined to a pixel is the least set that holds it and every glass neighbour of its own |
| `PaneFill.SharedLabelIffJoined` | sg-deskcomp.c:1093-1107 | two labelled pixels share a pane if and only if a 4-connected path of glass joins them |
| `PaneFill.GlassIffLabelled` | sg-deskcomp.c:1086-1107 | with fewer panes than numbers a pixel has a label if and only if it is glass; lead keeps 0 |
| `PaneFill.FirstPixelsAgree` | sg-deskcomp.c:1094-1098 | panes are numbered by their first pixels in row-major order, in any exact labelling |
| `PaneFill.ExactIsUnique` | sg-deskcomp.c:1093-1107 | the picture alone decides the labelling: there is one exact one, so no other order of filling could differ |
| `PaneFill.FirstsExact` | sg-deskcomp.c:1093-1107 | what the fills leave is the exact labelling |
| `PaneLight.GatherExtents` | sg-deskcomp.c:1119-1127 | one pass gathers, for lead and every pane, the count, coordinate sums and box of its pixels |
| `PaneLight.FiguresGrow` | sg-deskcomp.c:1119-1127 | pixel by pixel: one of the pane counts one, adds its column and row, and widens the box to them; any other changes nothing |
| `PaneLight.ExtentHoldsPane` | sg-deskcomp.c:1119-1138 | every pixel of a pane lies in its box |
| `PaneLight.ExtentIsTight` | sg-deskcomp.c:1119-1138 | each side of the box touches a pixel of the pane |
| `PaneLight.CountsAddUp` | sg-deskcomp.c:1119-1127 | the counts of lead and all panes add up to the picture |
| `PaneLight.MiddleWithinExtent` | sg-deskcomp.c:1133-1138 | a pane's middle lies within its box |
| `PaneLight.MiddleInBox` | sg-deskcomp.c:1134-1138 | so a pane's middle on the screen is in its box |
| `PaneLight.FiguresOnScreen` | sg-deskcomp.c:1133-1138 | middle and box are four to a pixel on the screen: four times the mean and 2, and four times the corners |
| `PaneLight.SquareExactly` | sg-deskcomp.c:1768-1774 | a pixel's square is the screen's pixels it was taken from, four by four |
| `PaneLight.ReachBoxExactly` | sg-deskcomp.c:1768-1774 | a light's box is twice its reach each way, and no more |
| `PaneLight.ContainsExactly` | sg-deskcomp.c:1172-1182 | a box contains another just when it holds all its pixels |
| `PaneLight.PaneLevel` | sg-deskcomp.c:1153-1158 | the level at a distance is 1 up to 0.55 of the reach and only there, 0 from 1.25 of it on, and between them (1.25 r - d) / (0.7 r) |
| `PaneLight.PaneLevelFalls` | sg-deskcomp.c:1153-1158 | and it never rises with the distance |
| `PaneLight.Eighths` | sg-deskcomp.c:1171-1171 | a level in eighths, 0 to 8, is the nearest: within half an eighth, the upper of two as near |
| `PaneLight.LitOf` | sg-deskcomp.c:1189-1189 | the light's mask is 144 parts of the level, the rest cut off |
| `PaneLight.VeilOf` | sg-deskcomp.c:1190-1190 | the veil is 255 parts of what the level leaves, the rest cut off |
| `PaneLight.EighthsShown` | sg-deskcomp.c:1189-1190 | of q eighths the masks show 18 q and (8 - q) * 255 / 8 |
| `PaneLight.LevelOfDistance` | sg-deskcomp.c:1153-1171 | so a small pane has eight eighths up to 0.55 of the reach, none from 1.25 of it on, and between them a level within a sixteenth of the exact one |
| `PaneLight.OwnOfDistance` | sg-deskcomp.c:1183-1190 | and lead and big panes show 144 and 0 near, 0 and 255 far, and parts of the exact level between |
| `PaneLight.DistancesAre` | sg-deskcomp.c:1170-1188 | the distances are straight ones, of a pane from its middle and of a pixel from the middle of its four by four square |
| `PaneLight.Grown` | sg-deskcomp.c:1172-1182 | a box grown by another is the least that contains both |
| `PaneLight.PaneMasks.SetLevels` | sg-deskcomp.c:1169-1182 | after the light moved every small pane has its quantised level at its middle's distance from it, and the box holds the given one and the box of every pane whose level changed |
| `PaneLight.PaneMasks.DrawMasks` | sg-deskcomp.c:1183-1191 | every pixel of both masks shows its pane's level, or in lead and big panes its own |
| `PaneLight.PaneMasks.LightPanes` | sg-deskcomp.c:1162-1191 | a small pane is at 8 eighths within 0.55 of the reach of its middle, 0 from 1.25 of it on, and within a sixteenth of (1.25 r - d) / (0.7 r) between; its pixels show 18 and 255 / 8 parts of that, others their own level; the box holds the given one and the square of every pixel of a small pane whose mask changed |
| `PaneLight.PaneMasks.MasksShown` | sg-deskcomp.c:1183-1191 | what is drawn is that: figures of the masks for small panes by their eighths, for all other pixels by their own distance |
| `PaneLight.PaneMasks.ShineAt` | sg-deskcomp.c:1771-1781 | of a frame of the light, every square of a small pane whose mask changed is in one of the boxes drawn again; from the second frame on, with reaches of 2 and more, so is every square of lead and big panes |
| `PaneLight.PaneMasks.constructor` | sg-deskcomp.c:1119-1140 | each pane's middle, box and whether it is big, from the pixels of its label |
| `PaneLight.LitSquareInReachBox` | sg-deskcomp.c:1768-1774 | from a reach of 2 up, the square of any pixel the light reaches is in the light's box |
| `PaneLight.ShortReachSpillsOver` | sg-deskcomp.c:1768-1774 | a reach of 0 or 1 leaves part of a lit square out of the box |
| `PaneLight.ChangedSquareCovered` | sg-deskcomp.c:1771-1777 | a pixel whose own level differs between two lights has its square in one of the two boxes |
| `SiteIndex.CountSites` | sg-deskcomp.c:1621-1621 | the first pass counts each square's sites |
| `SiteIndex.SumStarts` | sg-deskcomp.c:1622-1622 | the second sums them, so each square knows where its sites start |
| `SiteIndex.PlaceSites` | sg-deskcomp.c:1623-1623 | the third puts each site into the next free place of its square's slice |
| `SiteIndex.BuildIndex` | sg-deskcomp.c:1617-1624 | the three passes are a stable counting sort: slice c lists exactly the sites of square c, in increasing order |
| `SiteIndex.FreePlace` | sg-deskcomp.c:1623-1623 | the place a site is put lies in its own square's slice, clear of all that is placed |
| `SiteIndex.SitesInExactly` | sg-deskcomp.c:1617-1624 | a slice lists a site if and only if it lies in the square |
| `SiteIndex.SitesInIncreasing` | sg-deskcomp.c:1617-1624 | and lists them in increasing order |
| `SiteIndex.BeforeCountsAll` | sg-deskcomp.c:1617-1624 | the last start is the number of sites |
| `SiteIndex.EachSiteOnce` | sg-deskcomp.c:1617-1624 | every site stands once in the index, in its own slice: the items are a permutation of the sites |
| `SiteIndex.SliceOf` | sg-deskcomp.c:1617-1624 | the slices cover the index: every place is in one |
| `CellSearch.GridInside` | sg-deskcomp.c:1594-1602 | every site, on the screen or off it, has a square of the grid |
| `CellSearch.FarAlongAxis` | sg-deskcomp.c:1594-1602 | a site more than r squares off, clamped or not, is more than r squares' width away along that axis |
| `CellSearch.OutsideBlockIsFar` | sg-deskcomp.c:1634-1649 | so is a site outside the block of r rings, in straight distance |
| `CellSearch.ConsideredKeepsNearest` | sg-deskcomp.c:1641-1644 | the update for one more site keeps the nearest and second nearest of those seen |
| `CellSearch.DistanceIs` | sg-deskcomp.c:1641-1642 | the distance gone by is the square of the straight one, both axes' squares added |
| `CellSearch.SliceIsSquare` | sg-deskcomp.c:1640-1641 | the index lists a square's sites, each once |
| `CellSearch.ScanSquare` | sg-deskcomp.c:1640-1645 | one square considered: the first two of what was seen and of it, for sites none of which was seen |
| `CellSearch.SeenNext` | sg-deskcomp.c:1634-1639 | no square is searched twice and none of a ring is left out, so the nearest is never also the second |
| `CellSearch.ScanRow` | sg-deskcomp.c:1637-1646 | one row of a ring, off-grid squares and those of inner rings passed over |
| `CellSearch.ScanRing` | sg-deskcomp.c:1635-1647 | one ring: the first two of the block so far |
| `CellSearch.EarlyExitIsGlobal` | sg-deskcomp.c:1648-1648 | a search that stopped early has the two nearest of all the sites |
| `CellSearch.NearBestIsGlobal` | sg-deskcomp.c:1634-1649 | even without stopping early, a nearest site within the searched rings' width is nearest of all |
| `CellSearch.NearestFoundExactly` | sg-deskcomp.c:1634-1649 | with sites there, the first found is nearest of all if and only if some site in the squares searched is at least as near as every site outside them |
| `CellSearch.TwoNearAreGlobal` | sg-deskcomp.c:1634-1649 | with two sites nearer than three squares are wide, both found are the two nearest of all |
| `CellSearch.EarlyExitIsFinal` | sg-deskcomp.c:1648-1648 | and would have found no other by going on, of equally near sites neither |
| `CellSearch.ConsideredKeepsFirst` | sg-deskcomp.c:1643-1644 | of equally near sites the one considered first stays |
| `CellSearch.SeenSooner` | sg-deskcomp.c:1635-1639 | the squares come ring by ring, row by row and column by column |
| `CellSearch.FoundIsOne` | sg-deskcomp.c:1628-1649 | so what is found at a pixel is one pair of sites |
| `CellSearch.FindTwo` | sg-deskcomp.c:1628-1649 | the ring search finds the first two of the squares searched, by straight distance and then by ring, row, column and number, whether it stops early or not; each found has its squared distance, no site is nearer than the first if that is within three squares' width, and none but it nearer than the second if that is |
| `CellSearch.FoundDistances` | sg-deskcomp.c:1641-1644 | the two found are different sites and the distances given are the sums of the squares of their own offsets |
| `CellSearch.NoSiteNearer` | sg-deskcomp.c:1628-1649 | in sums of squares: within three squares' width no site is nearer than the first found, no other than the second, and a site so near is never missed |
| `CellSearch.TieGoesToFirst` | sg-deskcomp.c:1635-1644 | of equally near sites the one found is in an inner ring, else in an upper row, else further left, else of a smaller number |
| `CellSearch.PixelColor` | sg-deskcomp.c:1631-1652 | a pixel is lead in a window, else by the two sites found |
| `CellSearch.ColorIs` | sg-deskcomp.c:1625-1680 | lead, 0x221e28, in a window or with no site found; the leaded picture's own by a site that is near no window; else the cell's shade |
| `CellSearch.RenderBox` | sg-deskcomp.c:1607-1682 | exactly the pixels of the box that are on the screen are drawn; every other keeps its value |
| `CellSearch.RenderRows` | sg-deskcomp.c:1625-1682 | row by row, pixel by pixel |
| `CellSearch.DrawnIs` | sg-deskcomp.c:1607-1682 | a box drawn, at a pixel by column and row: its colour in the box, what it was elsewhere |
| `CellSearch.ClippedHolds` | sg-deskcomp.c:1612-1616 | clipping a box to the screen keeps just its pixels on the screen |
| `CellSearch.SaneInRange` | sg-deskcomp.c:1629-1644 | with coordinates a screen can have, every site is nearer than the first distances of the search |
| `CellRedraw.PaintsIsOne` | sg-deskcomp.c:1625-1680 | a pixel has one colour, whatever sites are equally near |
| `CellRedraw.ShowsIsOne` | sg-deskcomp.c:1625-1680 | so a screen drawn in full is one picture |
| `CellRedraw.IsWhereItWas` | sg-deskcomp.c:1748-1749 | a window stays just when the first of its number in the other list is the same |
| `CellRedraw.ChangedIs` | sg-deskcomp.c:1740-1751 | with numbers distinct, a pixel is drawn again just when it is within the margin of a window that is in one of the lists and not, as it is, in the other |
| `CellRedraw.WindowsKeptElsewhere` | sg-deskcomp.c:1740-1751 | outside the boxes drawn again the windows cover what they covered |
| `CellRedraw.Cells.RenderMoved` | sg-deskcomp.c:1744-1751 | a box about each window that is not where it was is drawn on top of what was drawn before |
| `CellRedraw.Cells.Render` | sg-deskcomp.c:1736-1756 | all of the screen has its colours, or the boxes about the new and old places of what changed, and the rest is as it was |
| `CellRedraw.ShownIs` | sg-deskcomp.c:1736-1756 | pixel by pixel by column and row: its colour on a screen drawn, and in the boxes of one drawn again, where all else is as it was |
| `CellRedraw.PartShowsAllExactly` | sg-deskcomp.c:1699-1754 | a screen drawn for the windows as they were and in boxes for the windows as they are shows these in full if and only if no pixel outside the boxes has another colour |
| `CellRedraw.SameElsewhereIs` | sg-deskcomp.c:1736-1754 | the condition is that each pixel of the screen in no box has one colour for both frames |
| `CellRedraw.FollowsIs` | sg-deskcomp.c:1740-1741 | the boxes reach two squares' widths round what changed |
| `CellRedraw.Cells.RenderAll` | sg-deskcomp.c:1699-1756 | over any frames, the first in full: every one is shown in full if and only if each drawn in part keeps the colours outside its boxes |
| `CellRedraw.OpenedLidMissesAPixel` | sg-deskcomp.c:1699-1754 | two spacings are not always as far as a change of sites reaches: with any hash and grid, a window opened above two others turns a pixel between them to lead that is not drawn again, if it was not lead |
| `CellRedraw.UnderLidNoneFound` | sg-deskcomp.c:1630-1650 | with the three windows a pixel between the two finds no site |
| `CellRedraw.WithoutLidFound` | sg-deskcomp.c:1630-1650 | with the two it finds one |
| `SitePlacement.InPane` | sg-deskcomp.c:1529-1535 | a point is in some pane grown by the margin |
| `SitePlacement.SpacingIs` | sg-deskcomp.c:1541-1542 | the spacing is a ninth of the screen's smaller side, and at least 40 |
| `SitePlacement.SquaresExact` | sg-deskcomp.c:1546-1547 | the grid has just the squares whose corner is less than a spacing past the screen |
| `SitePlacement.GridSiteInItsSquare` | sg-deskcomp.c:1548-1550 | a jittered site stays in the square round its own grid point |
| `SitePlacement.BaseSites` | sg-deskcomp.c:1543-1554 | the grid in row-major order, one site a square, each off its grid point by the hash's remainder less half the spacing, cut at 1000 |
| `SitePlacement.KeepGrid` | sg-deskcomp.c:1555-1559 | the grid's sites outside two thirds of the spacing round every pane, in order |
| `SitePlacement.KeptArePlaced` | sg-deskcomp.c:1555-1559 | every site kept is clear of all panes and is near if and only if within three halves of the spacing of one; every clear site of the grid is kept |
| `SitePlacement.PlaceSide` | sg-deskcomp.c:1566-1578 | the sites along one side of a pane, but those within 2 pixels of a pane, as far as there is room |
| `SitePlacement.PlacePane` | sg-deskcomp.c:1560-1579 | the four sides of a pane, numbered on from side to side |
| `SitePlacement.PlaceSites` | sg-deskcomp.c:1543-1581 | the sites are the grid's that are kept, then every pane's border, the first 2000 of them; a grid once made is kept |
| `SitePlacement.SideSiteOutside` | sg-deskcomp.c:1562-1575 | a border site lies out of its own side by a third to a half of the spacing, and along it but for half a step |
| `SitePlacement.SideSiteIs` | sg-deskcomp.c:1560-1577 | its exact place: its step's share of the side, the hash's shift along it, a third of the spacing and the hash's part out of it, and the number it is hashed by |
| `SitePlacement.StepsIs` | sg-deskcomp.c:1567-1567 | a side has a step more than nine twentieths of the spacing fit it |
| `SitePlacement.TriedBefore` | sg-deskcomp.c:1566-1568 | the four sides of a pane are numbered on, the ends of each tried too |
| `SitePlacement.BorderHas` | sg-deskcomp.c:1560-1577 | every place tried on all four sides of every pane that is not within 2 pixels of a pane has its site |
| `SitePlacement.SitesPlaced` | sg-deskcomp.c:1555-1581 | the grid's sites all have room and come first; at most 2000 in all; each border site is near, less than the spacing from a window and 2 pixels clear of all |
| `SitePlacement.PlacedForSearch` | sg-deskcomp.c:1543-1581 | so the sites placed for a screen are within what the search counts on |
| `SitePlacement.GridWithRoomIsWhole` | sg-deskcomp.c:1545-1554 | the grid placed is the whole one when it has room |
| `SitePlacement.OpenGridFindsBoth` | sg-deskcomp.c:1543-1649 | with no windows, and the whole grid within its 1000, every pixel's two nearest of all sites are found |
| `SitePlacement.GapFindsNone` | sg-deskcomp.c:1543-1650 | between two windows side by side on a 360 by 360 screen a pixel finds no site, though there are some, whatever the hash and the grid |
| `IconMask.Stamp` | sg-deskcomp.c:1256-1259 | an icon pixel marks itself and the eight round it, as far as they are in the mask |
| `IconMask.MarkIcons` | sg-deskcomp.c:1302-1311 | the marks of an area are exactly the pixels with an icon pixel of the area on or next to them |
| `IconMask.LoadWallpaper` | sg-deskcomp.c:1244-1262 | the whole mask is the difference of the pictures grown by a pixel |
| `IconMask.DifferInColor` | sg-deskcomp.c:1255-1255 | two pixels differ just when red, green or blue do |
| `IconMask.MaskIs` | sg-deskcomp.c:1250-1262 | a pixel of the mask is 255 just when it or one of the eight round it differs in colour from the wallpaper's, else 0 |
| `IconMask.UpdateIconMask` | sg-deskcomp.c:1284-1316 | if the mask was right and the pictures changed in a part only, it is right after the part is found again, over the whole screen; if they cannot be fetched it stays |
| `IconMask.MarkedInPart` | sg-deskcomp.c:1285-1292 | in the part and a pixel round it, the icons of the part and two pixels round it decide |
| `IconMask.UntouchedOutside` | sg-deskcomp.c:1285-1316 | a mark further than a pixel from the part stays what it was |
| `IconMask.FollowChanges` | sg-deskcomp.c:1276-1320 | kept up through any changes in place the mask is the one that would be found at once |
| `WindowTable.SortByChildren` | sg-deskcomp.c:487-497 | the passes of restack build the order of the X server's children, each window with its ghosts above it, and the rest last |
| `WindowTable.RestackIsPermutation` | sg-deskcomp.c:478-501 | no entry is lost or doubled |
| `WindowTable.RestackIsStable` | sg-deskcomp.c:478-501 | the entries of a window, and its ghosts, keep the order they had |
| `WindowTable.RestackIsIdempotent` | sg-deskcomp.c:478-501 | doing it twice changes nothing |
| `WindowTable.GroupInOnePiece` | sg-deskcomp.c:489-494 | a child's ghosts stand directly above its window |
| `WindowTable.RestackFollowsChildren` | sg-deskcomp.c:489-495 | a window below another in the X server's order stands below it, and entries of windows gone stand on top |
| `WindowTable.OwnersAnyOrder` | sg-deskcomp.c:478-501 | who owns what does not depend on the order |
| `WindowTable.AfterDrop` | sg-deskcomp.c:452-459 | moving the last entry into the hole keeps every window once and everything else owned once |
| `WindowTable.AfterGhost` | sg-deskcomp.c:463-474 | picture, pixmap, shadow and shape moved to a ghost and the damage object kept, each is still owned once |
| `WindowTable.AfterAppend` | sg-deskcomp.c:204-212 | a new entry for a window that has none keeps window numbers unique |
| `WindowTable.Table.Find` | sg-deskcomp.c:197-202 | the entry found is the window's own, never a ghost, and it is found if there is one |
| `WindowTable.Table.ValidIs` | sg-deskcomp.c:197-202 | what holds of any two entries and any number: one entry of its own a window, no ghost with a damage object, everything there is in one place of one entry, and made as often as gone but for that |
| `WindowTable.Table.Exchange` | sg-deskcomp.c:279-312 | what an entry gives up is freed once, and what it takes over was no one's |
| `WindowTable.Table.Turn` | sg-deskcomp.c:279-295 | numbers go and are made, and the balance of the two with what is in use is kept |
| `WindowTable.Table.FreePictures` | sg-deskcomp.c:279-285 | picture and pixmap are freed and forgotten |
| `WindowTable.Table.GetShape` | sg-deskcomp.c:287-295 | the old shape is freed, the new one kept |
| `WindowTable.Table.GetPictures` | sg-deskcomp.c:297-312 | the old picture is freed; a new one is made for a mapped, managed window that X does not draw itself |
| `WindowTable.Table.PicturedIs` | sg-deskcomp.c:297-312 | picture and pixmap are what X gave where the window is mapped, managed and not drawn by X, else none |
| `WindowTable.Table.Forget` | sg-deskcomp.c:452-459 | an entry and all it holds go; the last entry takes its place |
| `WindowTable.Table.MakeGhost` | sg-deskcomp.c:463-474 | field by field: the last entry is a ghost with the window's number, kind, flags, picture, pixmap, shadow and shape and no damage object; the window's own keeps its damage object and flags and none of the other four |
| `WindowTable.Table.Restack` | sg-deskcomp.c:478-501 | the table becomes the restacked one, or stays when the server does not tell its order; everything stays owned once |
| `WindowTable.Table.AddWindow` | sg-deskcomp.c:422-450 | an entry is added if and only if the window is not the canvas, takes pictures and has none; with what it gets from X |
| `WindowTable.Table.OnCreate` | sg-deskcomp.c:2241-2244 | CreateNotify: the entry is added on top if it is to be, then the table restacked |
| `WindowTable.Table.OnMap` | sg-deskcomp.c:2253-2264 | MapNotify: shape and picture asked for again, the table restacked |
| `WindowTable.Table.OnUnmap` | sg-deskcomp.c:2265-2276 | UnmapNotify: a ghost with the last picture where windows are animated, else the picture freed |
| `WindowTable.Table.OnConfigure` | sg-deskcomp.c:2119-2147 | ConfigureNotify: a window put off the screen leaves a ghost where that is animated; one resized, or with no picture, has its picture asked for again; the table restacked |
| `WindowTable.Table.OnDestroy` | sg-deskcomp.c:2245-2252 | DestroyNotify: the damage object went with the window, everything else is freed once |
| `WindowTable.Table.OnReparentAway` | sg-deskcomp.c:2284-2287 | ReparentNotify away: the entry and all it holds go |
| `WindowTable.Table.OnShape` | sg-deskcomp.c:2237-2240 | ShapeNotify: the shape is asked for again |
| `WindowTable.Table.OnKind` | sg-deskcomp.c:2288-2296 | PropertyNotify: another kind of frame, and nothing else changes |
| `WindowTable.Table.DrawShadow` | sg-deskcomp.c:386-420 | a shadow made again replaces the old one, which is freed |
| `WindowTable.Table.MakeDirect` | sg-deskcomp.c:2082-2117 | a window X is to draw itself gives up its picture |
| `WindowTable.Table.EndDirect` | sg-deskcomp.c:2095-2108 | a window X no longer draws itself has its picture asked for again |
| `WindowTable.Table.Happen` | sg-deskcomp.c:2229-2298 | which event does what: the entry of the event's window, its own and no ghost, is changed as the event says, in these fields and no other, a ghost made where that is animated, the table restacked where the event says so; one step of a painted frame likewise; the invariant holds, and after Detached everything made has gone |
| `WindowTable.Table.OfWindow` | sg-deskcomp.c:2229-2298 | the same for the events about a window |
| `WindowTable.Table.InFrame` | sg-deskcomp.c:2061-2117 | and for the steps of a frame |
| `WindowTable.Table.HappenAll` | sg-deskcomp.c:1861-1926 | over any run, whatever X gives and gives again once it is free: each window keeps at most one entry of its own, ghosts hold no damage object, everything there is is owned by just one entry, and each number went once for every time it was made, but for those in use |
| `WindowTable.Table.Detach` | sg-deskcomp.c:2061-2076 | at detach every entry is forgotten and nothing is kept |
| `SessionProtocol.NewsReplays` | lock.c:131-153 | the notes of a change replay it, whatever changed |
| `SessionProtocol.LockDoes` | lock.c:562-569 | LOCK, from root, the session's user or the machine's account, leaves a real lock over any mode, told; else nothing changes |
| `SessionProtocol.WinLDoes` | seat.c:590-596 | so does Win+L, but at a console whose session was taken over |
| `SessionProtocol.UnlockDoes` | lock.c:570-577 | UNLOCK from root or the machine's account leaves the session unlocked; its programs are told of a lock's end only |
| `SessionProtocol.SecureDoes` | lock.c:640-671 | SECURE puts a prompt over an unlocked session only; RELEASE ends a prompt only; programs are not told |
| `SessionProtocol.SasDoes` | lock.c:649-657 | the three actions end the security screen, and nothing else does |
| `SessionProtocol.RemoteDoes` | lock.c:678-694 | when REMOTE begins a takeover, when it is refused, and what becomes of a connection that came with it; all else stays |
| `SessionProtocol.LocalDoes` | lock.c:316-353 | LOCAL, or the end of the remote connection, gives the session back locked |
| `SessionProtocol.ShadowDoes` | lock.c:664-677 | SHADOW begins a viewing when there is none and no takeover, and the connection's end ends it |
| `SessionProtocol.CtrlAltDelDoes` | seat.c:624-664 | Ctrl+Alt+Del ends a viewing but the viewer's own; then the console's takes a session back, locked; else an unlocked session gets the security screen, or a lock where no one watches |
| `SessionProtocol.StepTells` | lock.c:111-160 | each command emits at most one event, just when the mode changes, and the event names the new mode; its notes replay the session's change |
| `SessionProtocol.RunIsTold` | lock.c:111-160 | after any run the events tell the mode and the notes the session, and a remote connection means a takeover no one views |
| `SessionProtocol.LateWatcherIsTold` | lock.c:578-614 | so they do for a connection made in mid-run, from what it is told after that |
| `SessionProtocol.RunConsistent` | lock.c:276-498 | over every run, a remote client implies a takeover and shadow never coexists with remote |
| `SessionProtocol.OnlyAuthorityUnlocks` | lock.c:182-193 | without a command of an authorised account no run unlocks; a prompt or the security screen can only become a real lock |
| `SessionProtocol.LockEndsOnlyBy` | lock.c:276-313 | a real lock ends by UNLOCK or by REMOTE beginning a takeover and by nothing else |
| `SessionProtocol.LockLasts` | lock.c:928-1074 | a real lock lasts through any run without one of those |
| `SessionProtocol.TakeoverEndsLocked` | lock.c:316-353 | however a takeover ends, the console gets the session locked, and remote-disconnect is said before lock |
| `SessionProtocol.TakeoverUnlocks` | lock.c:276-313 | a takeover of a locked session unlocks it, and remote-connect is said before unlock |
| `SessionProtocol.RefusedRemoteKeepsConnectionExactly` | lock.c:678-700 | a refused REMOTE that came with a connection keeps it if and only if the session was taken over already, and changes nothing else |
| `SessionProtocol.RefusedConnectionKept` | lock.c:803-808 | and such a run there is: a takeover without a connection, a secure prompt, REMOTE with one |
| `SessionProtocol.ReplayedConcat` | lock.c:131-153 | replaying two logs one after the other is replaying both |
| `Compositor.Server.SendWatchers` | lock.c:111-119 | just the reachable watchers stay, each told the event, and each log stays the suffix since it registered |
| `Compositor.Server.SendSession` | lock.c:111-119 | the same for session watchers: those that can be reached, with one more note each |
| `Compositor.HeardOneMore` | lock.c:111-119 | one by one: a watcher that can be reached is told once more and stays in its place, another is dropped |
| `Compositor.HeardNoteOneMore` | lock.c:111-119 | so for session watchers |
| `Compositor.Server.SessionUpdate` | lock.c:131-153 | what was told becomes what is, and just the difference is said, remote first |
| `Compositor.Server.CursorMotion` | seat.c:1242-1301 | unless a window is being dragged, the pointer goes to the surface under the cursor if that is of a shown view's client and the view is allowed it, else to none; under a lock to no surface but a privileged client's |
| `Compositor.Server.UnderCursor` | seat.c:1242-1301 | of what the scene has under the cursor, a surface counts if its client is that of a shown view |
| `Compositor.Server.SetFocus` | seat.c:2117-2182 | the keys go to the view unless it has them, may not or does not want them; transients and elevated windows come to the front |
| `Compositor.Server.FocusGoes` | seat.c:2117-2182 | the view gets the keys just when it wants them, has them not, and is privileged or nothing is locked; then transients and elevated windows come first |
| `Compositor.WithoutIs` | seat.c:2150-2160 | taken from its place a view leaves the others in order |
| `Compositor.Server.FocusSession` | elevated.c:554-563 | the keys go to the first shown window that is neither elevated nor privileged |
| `Compositor.Server.FirstOfSessionIs` | elevated.c:554-563 | that is the first shown one neither elevated, minimized nor privileged |
| `Compositor.Server.HideAndFocus` | lock.c:897-925 | privileged views are shown and the others hidden, or under a prompt all left and dimmed; the keys go to the first privileged view or to nothing |
| `Compositor.Server.OthersHiddenIs` | lock.c:884-925 | a view is shown just when a privileged client's, or under a prompt as it was |
| `Compositor.Server.FirstPrivilegedIs` | lock.c:897-925 | the first privileged view is the first of a privileged client |
| `Compositor.Server.FirstOrdinaryIs` | lock.c:967-989 | the first ordinary one the first neither minimized nor privileged |
| `Compositor.Server.KeysAre` | lock.c:897-989 | either has the keys if it wants them, else no one has |
| `Compositor.Server.Isolate` | lock.c:897-925 | locked, told, hidden, focused: in that order |
| `Compositor.Server.Unisolate` | lock.c:967-989 | unlocked and told; every view shown unless minimized; the keys go to the first ordinary view or to nothing |
| `Compositor.Server.HideUnprivileged` | lock.c:884-894 | nothing else changes than that unprivileged views are hidden and the dimming ends |
| `Compositor.Server.LockEngage` | lock.c:928-952 | the step LOCK of the protocol, over each of the four modes, and the invariant kept |
| `Compositor.Server.LockRelease` | lock.c:992-999 | the step UNLOCK; nothing when unlocked |
| `Compositor.Server.SecureEngage` | lock.c:955-964 | the step SECURE; refused over a lock; no view is shown or hidden by it |
| `Compositor.Server.SecureRelease` | lock.c:1067-1074 | the step RELEASE; only a secure prompt is ended |
| `Compositor.Server.SasEngage` | lock.c:1004-1017 | the security screen, or a lock when no one is on the list of watchers; it comes up with no one left to draw it if and only if there are some on the list and none of them can be reached |
| `Compositor.UndrawnScreen` | lock.c:1004-1017 | as when the one watcher hangs up before |
| `Compositor.Server.SasAction` | lock.c:1050-1064 | ends the security screen on its three actions only |
| `Compositor.Server.RemoteAttach` | lock.c:276-313 | a takeover begins just when there is a backend, no prompt, and an output or a takeover already; a locked session is unlocked |
| `Compositor.Server.GiveSessionBack` | lock.c:316-353 | remote ends, is told, and the session is locked |
| `Compositor.Server.RemoteDetach` | lock.c:316-343 | the same, and the remote connection is cut |
| `Compositor.Server.RemoteCommand` | lock.c:678-700 | REMOTE with and without a descriptor: a connection adopted is kept, and privileged, when the session is taken over or was already; refused and not taken over it is let go; else the one there was stays |
| `Compositor.Server.ShadowCommand` | lock.c:457-498 | SHADOW: refused while viewed or taken over, else the viewer is privileged and the session told |
| `Compositor.Server.ClientGone` | lock.c:346-353 | a client going ends the takeover or viewing it was; no view of its own is left and neither keys nor pointer are on one |
| `Compositor.Server.ClientDone` | lock.c:346-353 | to the protocol that is the end of the remote connection, or of the viewing, or nothing |
| `Compositor.Server.CtrlAltDelKey` | seat.c:624-663 | Ctrl+Alt+Del ends a viewing, takes a session back from Remote Desktop, else asks for the security screen |
| `Compositor.Server.Execute` | lock.c:504-817 | the fields after a command are the protocol's step of the fields before; LOCK and Win+L leave a real lock, UNLOCK none, SECURE a prompt that RELEASE ends, the three actions end the security screen, LOCAL and the console's Ctrl+Alt+Del give the session back locked |
| `Compositor.Server.ProtocolIs` | lock.c:131-153 | what the protocol sees: the four modes as the three flags have them, a takeover, a viewing and a remote connection where there is one |
| `Compositor.Server.ExecuteAll` | lock.c:504-817 | and over any commands, each with its own client, its run |
| `Compositor.Server.Watch` | lock.c:578-593 | WATCH is for authorised accounts; the log starts empty |
| `Compositor.Server.WatchSession` | lock.c:594-614 | SESSION is for anyone in the session; the reply is the session as it is |
| `Compositor.Server.WatcherDone` | lock.c:99-108 | a connection that hung up or wrote something leaves its list, and no other does |
| `Compositor.Server.WatcherKnowsMode` | lock.c:111-119 | a WATCH connection that heard anything knows the mode from the last event |
| `Compositor.Server.WatcherKnowsSession` | lock.c:131-153 | a SESSION connection that folds what it was told over its opening reply has the session |
| `Compositor.Server.ConnectPrivileged` | lock.c:232-265 | a client of the privileged socket is privileged if and only if its account is authorised |
| `Compositor.Server.MapView` | view.c:266-315 | a mapped view is shown if the mode allows or only dims it, gets the keys if it may and wants them, and is held if the taskbar asks |
| `Compositor.Server.UnmapView` | view.c:218-263 | a view goes from every list; keys that were its own go to the first managed view left, if that may have them |
| `Compositor.FirstManagedIs` | view.c:218-263 | the first managed view left is the first that is not unmanaged |
| `Compositor.Server.KeysAfterIs` | view.c:218-263 | it has the keys if it wants them and may have them, else they stay |
| `Compositor.Server.DestroyView` | view.c:318-334 | and then to the front view, if that may have them |
| `Compositor.Server.HoldView` | session_x11.c:139-167 | a program's unprivileged window is held, and hidden, if the taskbar asks |
| `Compositor.Server.HoldExpired` | session_x11.c:119-136 | at the end of a hold it is shown if not minimized and allowed |
| `Compositor.Server.Activate` | session_x11.c:239-265 | a minimized view is shown only if the mode allows it, and gets the keys if it may |
| `Compositor.Server.Restore` | elevated.c:618-629 | no longer minimized, shown only if the mode allows it |
| `Compositor.Server.Minimize` | session_x11.c:332-357 | hidden; keys that were its own go to the first session window left |
| `Compositor.Server.DesktopFront` | session_x11.c:274-292 | the first shell desktop gets the keys, if it may |
| `Compositor.FirstShellIs` | session_x11.c:274-292 | that is the first of the shell |
| `Compositor.Server.PressButton` | seat.c:117-157 | a press gives the keys to the view under the cursor if it is shown, managed, allowed them and wants them and is no dialog of the focused one, and else leaves them |
| `Compositor.Server.HappenTo` | wayland_app.c:220-255 | what happens to a view does to it as Treated or PutOn says, keeps the invariant, and is nothing to the protocol |
| `Compositor.Server.TreatedIs` | view.c:218-263 | case by case: unmapped, a view is gone and the keys its own gone on; asked for or restored it is no longer minimized and shown if it may be, minimized it is hidden, at the end of its hold shown if not minimized and allowed; and where the keys are then |
| `Compositor.Server.PutOnIs` | view.c:266-315 | mapped, a view is in the list with its surface, shown just when the mode lets it, it is not minimized and not held, and has the keys just when it is managed, allowed them and wants them, else they stay |
| `Compositor.Server.SeatedIs` | seat.c:1242-1301 | and of the seat and the connections: who becomes privileged, where keys and pointer go for what is under the cursor, who watches from then on, who no longer does |
| `Compositor.Server.Happen` | lock.c:840-1074 | one thing that happens, whatever it is, does what Treated, PutOn and Seated say, leaves nothing of a client that left, keeps isolation, visibility, modes and logs, and is to the protocol just the command given, or the end of the connection that left |
| `Compositor.Server.HappenAll` | lock.c:840-1074 | over any run, views, keys, clients and watchers coming and going between commands: while locked keys and pointer are on privileged surfaces or none; under a lock or the security screen no other view is shown; while unlocked a view not held is shown if and only if it is not minimized; the fields are those of the protocol's run of the commands; and without an authorised one a locked session stays so or becomes really locked |
| `Clipboard.Clip.Destroy` | elevated.c:149-159 | a source and all that hangs on it, and nothing else, is gone, each once; the cascade ends |
| `Clipboard.Clip.InnerGone` | elevated.c:149-159 | a proxy told that its source goes is taken from its seat and destroyed |
| `Clipboard.Clip.SetSelection` | elevated.c:205-210 | what a seat had is destroyed with what hung on it, then the new one is its selection; nothing on the same one |
| `Clipboard.Clip.ProxyCreate` | elevated.c:162-193 | a proxy is made if and only if the source has a text type, and offers exactly its text types, in order and each as often |
| `Clipboard.TextOneMore` | elevated.c:149-184 | type by type: just these six cross, in the order they come |
| `Clipboard.TextCounts` | elevated.c:162-184 | each as often as the source has it |
| `Clipboard.TextIs` | elevated.c:162-184 | and none at all just when the source has none |
| `Clipboard.Clip.OfferTo` | elevated.c:256-259 | a proxy made and set |
| `Clipboard.Clip.ClipRequest` | elevated.c:198-213 | an elevated program's copy: its seat has it, and the session is offered its text |
| `Clipboard.Clip.UserInput` | elevated.c:235-261 | input on an elevated display offers it the session's text, unless it is there already |
| `Clipboard.Clip.SeatCloses` | elevated.c:317-347 | the seat's selection goes with it |
| `Clipboard.Clip.Send` | elevated.c:116-124 | a paste reaches a program's own source, through proxies for text types only, and then always |
| `Clipboard.Clip.HappenAll` | elevated.c:79-261 | over any possible run the fields are the run of the specification, and the invariant holds |
| `Clipboard.NothingHangs` | elevated.c:149-159 | once no proxy for a source is left, nothing hangs on it |
| `Clipboard.ChosenSound` | elevated.c:198-213 | choosing what may be offered keeps the invariant |
| `Clipboard.OfferSound` | elevated.c:162-261 | so does offering to another seat |
| `Clipboard.EchoGuardExact` | elevated.c:249-255 | offering the session's selection to a seat is sound if and only if it is not that seat's own text come back: the second check is needed and enough |
| `Clipboard.StepSound` | elevated.c:79-261 | every event keeps the invariant: each proxy is its seat's selection, is for another seat's selection, and offers just its text types |
| `Clipboard.SoundIs` | elevated.c:79-261 | what it says of a proxy: it is its seat's selection, for a program's own source or what the session has, and offers that source's text, each type as often, and some |
| `Clipboard.SelectionsAre` | elevated.c:79-261 | and of selections: each is a source there is, and no two seats have one |
| `Clipboard.WhatCanHappen` | elevated.c:79-261 | what can happen: a seat selects nothing, what it has, or a program's source no seat has; sources come and go, seats open, close and have input |
| `Clipboard.StepsAre` | elevated.c:79-347 | a source made is there, one gone goes with all that hangs on it, the session selects, a seat opens or closes |
| `Clipboard.WithoutIs` | elevated.c:149-159 | a source destroyed takes with it just the proxies over it, and selections of them |
| `Clipboard.ChosenIs` | elevated.c:205-210 | a seat given a source has it, and what it had, if another, is destroyed |
| `Clipboard.ClipRequestBrings` | elevated.c:198-213 | an elevated program's copy is its seat's selection and its text the session's |
| `Clipboard.RunSound` | elevated.c:79-261 | and so does every run |
| `Clipboard.ProxiesHangOnTheSession` | elevated.c:79-261 | every proxy is the session's selection or for it |
| `Clipboard.ChainsEndSoon` | elevated.c:86-91 | at most two proxies stand one over the other, over a program's own source |
| `Clipboard.OnlyUserInputBrings` | elevated.c:235-261 | no event but input on that display brings a proxy to an elevated seat |
| `Clipboard.RunBringsNothing` | elevated.c:235-261 | so over a run without such input it comes to hold nothing of the session's |
| `Clipboard.UserInputBrings` | elevated.c:235-261 | and after such input the session's text, if any, is on both sides |
| `Clipboard.UserInputElse` | elevated.c:235-261 | and else input on a display changes nothing |
| `KeyStream.Keyboard.TakeConsumedRelease` | seat.c:497-506 | the first slot with the key is emptied; says whether there was one |
| `KeyStream.Keyboard.MarkConsumed` | seat.c:509-517 | the first empty slot takes the key; a full table stays |
| `KeyStream.Keyboard.HandleReservedKey` | seat.c:575-610 | a key is reserved if and only if one of its symbols is, and the first such decides what is done |
| `KeyStream.ActOf` | seat.c:575-610 | each act has just its keys: the volume keys, Win+L, the terminate key or Ctrl+Alt+Backspace while unlocked, Ctrl+Alt+Del |
| `KeyStream.FirstSymbolDecides` | seat.c:575-610 | a key's act is that of the first of its symbols that has one |
| `KeyStream.Keyboard.LocalKey` | seat.c:666-742 | the same for a session not taken over: the waiting press goes first |
| `KeyStream.Keyboard.SwitchesVT` | seat.c:697-704 | of several symbols the last says whether a binding took the key |
| `KeyStream.Keyboard.HandleKey` | seat.c:624-745 | one key event: Ctrl+Alt+Del ends a viewing, a session taken over lets nothing of the console through but that; else what is told, what waits, what is swallowed and marked, and what the compositor does |
| `KeyStream.KeysOf` | seat.c:612-742 | which keys are the console's Ctrl+Alt+Del, Alt+Tab from an elevated window, a VT switch, and the shell's |
| `KeyStream.PressesOf` | seat.c:640-742 | which presses are consumed and marked, and which wait |
| `KeyStream.ActsAre` | seat.c:640-742 | what the compositor does for itself: takes a session back, the reserved act, or goes back to the session on the switcher's release |
| `KeyStream.SwitcherGoesBack` | seat.c:705-742 | Alt+Tab in an elevated window and its release are told to no window and the keys go back to the session |
| `KeyStream.WaitingGoesFirst` | seat.c:668-690 | a press that waits is told before the next event of a session not taken over |
| `KeyStream.Keyboard.HandleAll` | seat.c:624-745 | any events: the window was told what it should be if the run is clean, and with no takeover only then |
| `KeyStream.TableTracks` | seat.c:493-517 | whatever the events, with takeovers or without, the table holds just the keys that took a slot and have not given it back, each as often |
| `KeyStream.SlotsAfterIs` | seat.c:493-517 | key by key: a noted press takes a slot while fewer than eight are taken, a release gives one back |
| `KeyStream.RoomWhileFewerThanEight` | seat.c:509-517 | it has room just while fewer than eight slots are taken, and a key is in it just when it has one |
| `KeyStream.AddedAsExpected` | seat.c:650-742 | after any events, the next adds what it should to the keys told and waiting if and only if it is no release astray and no press lost |
| `KeyStream.OneMore` | seat.c:624-742 | what an event adds to the keys told or waiting is settled by the slots alone |
| `KeyStream.OneMoreExpected` | seat.c:493-742 | what it should add by whether its key is down by a consumed press |
| `KeyStream.OneMoreDown` | seat.c:493-742 | which the key's latest event says |
| `KeyStream.CleanIs` | seat.c:493-742 | a run is clean if before every event a release has a slot just when its key is down by a consumed press, and a press that is to wait has a code |
| `KeyStream.StreamRightThroughoutExactlyWhenClean` | seat.c:493-742 | any events at all: at all times the keys told and the one waiting are the input less the consumed pairs and what came during a takeover, in order, if and only if no release comes whose key has a slot without being down by a consumed press, or the other way round, and no press waits whose code is 0 |
| `KeyStream.SlotsAreOfKeysDown` | seat.c:493-517 | with no takeover every slot is for a key down by a consumed press, and no two for one |
| `KeyStream.AstrayAreStray` | seat.c:493-517 | so then none is swallowed that should be told: a release astray is one told whose press was not |
| `KeyStream.ReleasesCounted` | seat.c:666-742 | with no takeover every release astray is one too many |
| `KeyStream.PressesCounted` | seat.c:666-742 | and every press of code 0 that should wait one too few |
| `KeyStream.StreamIsExpectedExactlyWhenClean` | seat.c:493-742 | for keys pressed and let go in turn with no takeover the stream is the right one in the end just when it was all along: if and only if the run is clean |
| `KeyStream.EightKeysAreClean` | seat.c:493-495 | which is so with no VT switch, no code 0 and never more than eight consumed keys down |
| `KeyStream.NinthKeyLeaksItsRelease` | seat.c:509-517 | a key consumed while eight are down leaks its release |
| `KeyStream.NineKeysLeak` | seat.c:509-517 | as nine keys pressed at once show |
| `KeyStream.DroppedReleaseSwallowsTheNext` | seat.c:650-664 | a release dropped during a takeover leaves its slot taken: pressed again the key is told, and its release, if next, is swallowed |
| `KeyStream.DroppedReleaseSwallowsALater` | seat.c:650-664 | as with the mute key |
| `KeyStream.TwoWrongsCancel` | seat.c:650-704 | with takeovers the stream can be right in the end that was not all along |
| `KeyStream.VTSwitchLeaksTheNext` | seat.c:697-704 | a switch to another VT takes no slot: the key's release, if next, is told |
| `KeyStream.VTSwitchLeaksARelease` | seat.c:697-704 | as two events show |
| `KeyStream.CodeZeroIsLost` | seat.c:668-675 | a press that is to wait is lost if its code is 0 |
| `TitleIcon.Choose` | decor.c:451-460 | the scan picks, of the well-formed entries before the first bad one, the smallest width of at least 16, else the largest; the first of equals |
| `TitleIcon.EntriesAre` | decor.c:451-460 | entries come one after another from the first word while their sides are 1 to 1024 and their pixels all there |
| `TitleIcon.PickedIs` | decor.c:456-459 | of those at least 16 wide the one picked is one of the narrowest, with none so wide one of the widest, and the first of its width |
| `TitleIcon.PickedIsOne` | decor.c:451-460 | there is only one such entry |
| `TitleIcon.BoxInside` | decor.c:466-469 | every box has a pixel and lies in the picture |
| `TitleIcon.BoxIs` | decor.c:466-471 | a box is a sixteenth of the side, ends cut off, and one that would be empty is its first pixel |
| `TitleIcon.EachInOneBox` | decor.c:466-469 | from 16 pixels on, each pixel of a side is in one box and no other |
| `TitleIcon.BoxesAddUp` | decor.c:463-479 | so the sums of the boxes add up to the picture's |
| `TitleIcon.BoxAveraged` | decor.c:470-480 | an icon pixel's channel lies within what its box's pixels have |
| `TitleIcon.AveragesPremultiplied` | decor.c:472-480 | no colour of it is more than its alpha |
| `TitleIcon.BoxSums` | decor.c:470-479 | the loops add up a box, with nothing of it cut off |
| `TitleIcon.BoxPixel` | decor.c:466-480 | an icon pixel has every channel averaged over its box |
| `TitleIcon.BoxedIs` | decor.c:470-480 | the average of a box is its rectangle's sum over the count of its pixels, the rest cut off |
| `TitleIcon.BlockOfOne` | decor.c:473-478 | a rectangle's sum is of its pixels' shares |
| `TitleIcon.ShareIs` | decor.c:474-477 | a colour counts by its alpha, of 255, the rest cut off; the alpha whole |
| `TitleIcon.BytesMakeUp` | decor.c:473-480 | alpha, red, green and blue from the top byte down make up a word |
| `TitleIcon.BoxedIsOne` | decor.c:480-480 | which decides the pixel |
| `TitleIcon.Shrink` | decor.c:462-482 | and so has every pixel of the icon |
| `TitleIcon.RightIs` | decor.c:463-480 | the icon is 16 by 16 row by row, each pixel the average of its box |
| `TitleIcon.PictureIs` | decor.c:462-473 | an entry's pixels follow its width and height, row by row |
| `TitleIcon.FetchIcon` | decor.c:448-486 | the window's icon is that of the entry picked, or none |
| `TitleIcon.LaidFits` | decor.c:806-808 | a channel laid over any other never passes 255 if and only if it is no more than its alpha |
| `TitleIcon.Blend` | decor.c:805-809 | so the limits never act, and each channel is its own and what its alpha leaves of the bar's |
| `TitleIcon.OverIs` | decor.c:805-809 | each colour is its own and what 255 less the alpha leaves of the bar's, and the bar stays opaque |
| `TitleIcon.Compose` | decor.c:800-811 | the icon is laid at its place, cut at the bar's right end, and no other pixel of the bar changes; for every caption in which that stays in the bar |
| `TitleIcon.ComposedIs` | decor.c:800-811 | icon pixel by column and row, at its left and first row of the bar; no other pixel changes |
| `TitleIcon.IconInTheMiddle` | decor.c:802-802 | as many rows of the caption above it as below, or one fewer |
| `TitleIcon.IconFitsTheBarExactly` | decor.c:802-802 | the icon's rows are all the bar's if and only if the caption is at least 16 pixels high |
| `TitleIcon.LowCaptionRunsOver` | decor.c:802-809 | in a lower one, and captions from 12 are taken, the last row of the icon is past the bar's last pixel |
| `Raster.RowOf` | sg-deskcomp.c:1093-1108 | column and row of a place in row-major order give it back and lie in the picture |

## Left out

- Floating point: distances, site coordinates and light levels are reals, so rounding, and `1e18` as a float, are not
  modelled; distances from the light are arguments that are required to be right.
- PaneLight.PaneMasks.LightPanes: `XRectangle`'s 16-bit fields and failed allocations are not modelled; the distances,
  which the source takes by a square root, are handed in and required to be the ones.
- PaneLight.PaneMasks.ShineAt: what the masks' memory holds before the first frame is any value, so for lead and big
  panes nothing is said of that frame.
- PaneFill.MakePanes: the picture comes as colours; fetching it and the cached result for an unchanged picture are not
  modelled. The glass left when the numbers run out becomes lead, as in the code, so then only the panes numbered are
  exact.
- CellSearch.PixelColor: the shading of a cell between its two sites is a function given to it; sites' colours likewise.
- CellRedraw.Cells.Render: one size of screen; putting the cells on the screen, and when a frame is due, are not
  modelled.
- SitePlacement.PlaceSites: `hash32` is a parameter, and coordinates are reals. The panes are taken to be at least a
  pixel wide and high, which `find_panes` makes them.
- IconMask.UpdateIconMask: rows are rows of a two-dimensional array, not bytes at a stride.
- WindowTable.Table.HappenAll: what X gives in an event was free when the event began, so a number freed within it is
  not given again within it; of an entry only what ownership and stacking depend on is kept (no geometry, opacity or
  animation), so when a ghost is over and which shadows are made again are steps of their own.
- Compositor.Server.UnderCursor: what the scene has under the cursor at each look is given, any list; layers, stacking and
  geometry are not modelled. Touch and tablets are not.
- Compositor.Server.CursorMotion: a view's own clients are told apart by client, not by subsurface; whether an X11
  window wants the focus is fixed.
- Compositor.Server.SetFocus: giving the keys, and taking them (Compositor.Server.ClearKeyboard), is taken to have its
  effect. wlroots sends both through the seat's keyboard grab, and an open xdg popup's grab keeps the keys where they are.
- Compositor.Server.HoldView: the hold's timer is a step of its own, and whether the taskbar asks is an argument.
- Compositor.Server.MapView: a view gets a surface it had not; failed allocation of its scene node is not modelled. A
  view minimized while unmapped is mapped minimized.
- Compositor.Server.Execute: sockets, descriptors, audit lines, replies' texts, and the commands that only report
  (WINDOWS, XWINDOWS, STATUS, IDLE, INHIBIT, SHADOWSTATUS) are not modelled; the helper run by SAS is not either.
- Clipboard.Clip.SetSelection: `wlr_seat_set_selection` is taken to destroy what it replaces, and destruction to tell
  all who wrap it; the order in which they are told is any. Serials and primary selections are not modelled, nor the
  program's Xwayland beside its source.
- Clipboard.Clip.ProxyCreate: failed allocations, which would leave types out, are not modelled.
- KeyStream.Keyboard.HandleKey: one keyboard, and a build without DEBUG; the sum of a code and 8 does not wrap.
  Modifiers, key repeat and what `session_x11_super` answers are arguments.
- TitleIcon.FetchIcon: the property comes as a sequence of words; asking for it, and giving up after eight tries, are
  not modelled.
- TitleIcon.Compose: the bar's other drawing is not modelled, nor what a write past the bar's pixels does.
- Window geometry, output configuration and power, idle inhibitors, cursor images, drag icons, wobble, blur, shadows'
  shapes and the choice of colours: nothing here depends on them.
