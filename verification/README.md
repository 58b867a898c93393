# Xbox drivers of SDL 1.2: a Dafny model

This project models the decision logic of the four SDL 1.2 drivers that port
SDL to the original Xbox console. It proves properties of that model.

- **Audio** (module `XboxAudio`): the DirectSound driver. It covers:
  - negotiation of the sample format;
  - creation of the chunk ring, either a two-chunk secondary buffer or the
    hardware primary buffer cut into chunks;
  - the mixing cycle `GetAudioBuf` → `PlayAudio` → `WaitAudio`;
  - draining and closing.
- **Joystick** (module `XboxJoystick`): the gamepad driver. It covers:
  - device insertion and removal per port;
  - rising-edge detection on the digital and analog buttons;
  - the hat derived from the D-pad bits;
  - the four thumb-stick axes with their integer deadzone;
  - the SDL joystick events an update reports.
- **Video** (module `XboxVideo`): the parts of the Direct3D video driver that
  decide something themselves:
  - the NULL-terminated mode list built from the console's video flags;
  - the depth, pixel masks, pitch, surface flags and progressive/interlaced
    choice of `SetVideoMode`;
  - the display format and refresh rate reported by `VideoInit`;
  - shutting down.
- **Keyboard and mouse** (modules `XboxKeymap` and `XboxEvents`):
  - the 256-entry key table, in which later assignments overwrite earlier ones;
  - `TranslateKey` and the press/release decision of `keyboard_update`;
  - the keyboard poll over the ports;
  - `mouse_update`'s motion, button and wheel events, keeping the literal
    reuse of the port counter by the button loop;
  - the device refresh of each port.

Every console SDK call is a parameter of the model:

- DirectSound: the cursor position, lock success, buffer capacity and
  created handles.
- XInput: the device masks, device-change masks, opened handles and readings.
- XGetVideoFlags and XGetVideoStandard: the video flags and standard.
- Direct3D: device and texture creation success.
- malloc: allocation success.

NULL pointers are `Option.None`. Two pointers can point at freed memory
without being reset: the audio buffer after a failed primary set-up, and the
video mode list after shut-down. Each is modelled with a third state,
`Released` or `Freed`. Fixed-width C integers are subset types (`u8` … `i32`,
module `Common`). C's modular conversions (`U32`, `U16`) are written out
where a result can wrap.

`VideoInit` returns 1 on success and 0 on failure, exactly as the driver
returns them.

## Model

| member | source | states |
|---|---|---|
| XboxAudio.NegotiateFormat | SDL/src/audio/xbox/SDL_xboxaudio.c:531-553 | A format is chosen iff the low byte is 8 or 16. 8 gives AUDIO_U8 with silence 0x80 and 16 gives AUDIO_S16 with silence 0. The block align in bits is channels × sample bits. The byte rate is freq × block align whenever that fits in 32 bits. |
| XboxAudio.CreateSecondary | SDL/src/audio/xbox/SDL_xboxaudio.c:424-476 | The result is -1 or 2 chunks. It is 2 iff the 32-bit size 2×chunk lies in [DSBSIZE_MIN, DSBSIZE_MAX] and DirectSound creates the buffer. On failure the buffer pointer is unchanged. On success the buffer is 2×chunk bytes, every byte 0x80 for 8-bit samples and 0 otherwise when it could be locked. |
| XboxAudio.SecondarySizeBounds | SDL/src/audio/xbox/SDL_xboxaudio.c:441-447 | For any chunk SDL can compute, the secondary buffer is created exactly when DSBSIZE_MIN/2 ≤ chunk ≤ DSBSIZE_MAX/2 and creation succeeds. |
| XboxAudio.CreatePrimaryAsWritten | SDL/src/audio/xbox/SDL_xboxaudio.c:349-418 | As written, the set-up succeeds iff the cooperative level, creation, capability query and format all succeed, chunk ≤ capacity and capacity mod chunk = 0. On success there is at least one chunk, count × chunk = capacity and the buffer is live. A buffer created and then rejected is left released but not NULL. Before creation the pointer is untouched. |
| XboxAudio.CreatePrimary | SDL/src/audio/xbox/SDL_xboxaudio.c:349-418 | Corrected set-up, which also demands two chunks. It succeeds iff every SDK step succeeds, 2×chunk ≤ capacity and the capacity is a multiple of the chunk. Then count × chunk = capacity and the buffer is live. A buffer created and then rejected is left released but not NULL. Before creation the pointer is untouched. |
| XboxAudio.PrimaryChunkCount | SDL/src/audio/xbox/SDL_xboxaudio.c:394-406 | For a capacity that divides evenly, capacity/chunk chunks fill it exactly. The quotient is ≥1 iff chunk ≤ capacity and ≥2 iff 2×chunk ≤ capacity. |
| XboxAudio.OpenAudioAsWritten | SDL/src/audio/xbox/SDL_xboxaudio.c:520-594 | As written: the status is 0 or -1 and the buffer pointer is reset first. An unsupported format fails with nothing else changed. Otherwise the request's format and the silence byte are updated. Success holds iff the as-written primary set-up (when configured) or the secondary set-up succeeds. Success starts at chunk 0 with mixlen = the request's size and at least one chunk; fewer than two chunks only when the primary buffer holds exactly one chunk. Failure sets NUM_BUFFERS to -1. |
| XboxAudio.OpenAudio | SDL/src/audio/xbox/SDL_xboxaudio.c:520-594 | Corrected open, using the corrected primary set-up. The same outcomes as OpenAudioAsWritten, except that success holds iff the corrected primary set-up (when configured) or the secondary set-up succeeds, and every success has at least two chunks. |
| XboxAudio.OpenLeavesValidRingAsWritten | SDL/src/audio/xbox/SDL_xboxaudio.c:559-583 | A successful open as written on an existing DirectSound object leaves a valid ring: a live buffer of whole, non-empty chunks. It has the secondary buffer's two chunks unless the primary buffer was taken. |
| XboxAudio.OpenLeavesValidRing | SDL/src/audio/xbox/SDL_xboxaudio.c:559-583 | Corrected open: a success on an existing DirectSound object leaves a valid ring of at least two chunks. |
| XboxAudio.SecondaryStartsSilent | SDL/src/audio/xbox/SDL_xboxaudio.c:464-468 | A secondary buffer that could be locked starts out holding exactly the silence byte the format negotiation chose. |
| XboxAudio.GetAudioBuf | SDL/src/audio/xbox/SDL_xboxaudio.c:275-302 | The lock pointer is cleared first. A failed cursor query returns NULL with nothing else changed. Otherwise playing = cursor/mixlen and a chunk is locked iff the lock succeeds. Only `playing` and the lock pointer change. |
| XboxAudio.LockedChunkFollowsPlaying | SDL/src/audio/xbox/SDL_xboxaudio.c:282-295 | For a cursor inside a valid ring, the playing chunk is a chunk of the ring. The locked offset is ((playing+1) mod N) × mixlen and the locked chunk lies wholly inside the buffer. With N ≥ 2 it is never the playing chunk. |
| XboxAudio.PlayAudio | SDL/src/audio/xbox/SDL_xboxaudio.c:266-273 | An unlock is made iff the lock pointer is non-NULL, of mixlen bytes at that pointer. |
| XboxAudio.PlayUnlocksLockedChunk | SDL/src/audio/xbox/SDL_xboxaudio.c:266-302 | Fetching and then playing unlocks exactly the chunk after the playing one, mixlen bytes long. |
| XboxAudio.GetAudioBufKeepsValid | SDL/src/audio/xbox/SDL_xboxaudio.c:275-302 | Fetching keeps a ring valid whatever the hardware answers. |
| XboxAudio.WaitLoop | SDL/src/audio/xbox/SDL_xboxaudio.c:212-238 | The loop ends at the first round that is neither a successful restart nor a cursor still in the playing chunk, and every earlier round is one of those. A failed restart ends it as PlayFailed, a failed position query as PositionFailed, and a cursor in another chunk as ChunkChanged. |
| XboxAudio.WaitAudio | SDL/src/audio/xbox/SDL_xboxaudio.c:189-239 | A NULL buffer returns at once, and only a NULL buffer gives that exit. A failed first query returns. A first cursor outside the playing chunk returns without looping. Otherwise the loop runs. |
| XboxAudio.SingleChunkWaitNeverAdvances | SDL/src/audio/xbox/SDL_xboxaudio.c:202-238 | On a one-chunk ring with every cursor inside the buffer, a wait after a fetch never sees the chunk change. |
| XboxAudio.WaitDone | SDL/src/audio/xbox/SDL_xboxaudio.c:304-326 | Draining fetches. If a chunk was locked, exactly those mixlen bytes are set to the silence byte and unlocked; otherwise the bytes are unchanged and nothing is unlocked. Then it waits and stops the buffer, and the ring stays valid. |
| XboxAudio.DrainIdempotent | SDL/src/audio/xbox/SDL_xboxaudio.c:304-326 | Draining again with the same hardware answers gives the same result. |
| XboxAudio.DrainSilencesNextChunk | SDL/src/audio/xbox/SDL_xboxaudio.c:309-314 | With N ≥ 2 and the cursor inside the buffer, draining fills every byte of the chunk after the playing one with silence and leaves every byte of the playing chunk as it was. |
| XboxAudio.CloseAudio | SDL/src/audio/xbox/SDL_xboxaudio.c:328-343 | Without a DirectSound object nothing happens. Otherwise three releases are made in order: the buffer if its pointer is non-NULL, the event if present, then the DirectSound object. All three pointers become NULL. |
| XboxAudio.CloseIdempotent | SDL/src/audio/xbox/SDL_xboxaudio.c:328-343 | A second close releases nothing and changes nothing. |
| XboxAudio.CloseReleasesOnce | SDL/src/audio/xbox/SDL_xboxaudio.c:328-343 | Closing a valid ring releases its buffer exactly once and its DirectSound object exactly once. |
| XboxAudio.SingleChunkPrimaryAccepted | SDL/src/audio/xbox/SDL_xboxaudio.c:394-406 | Counterexample: a 4096-byte primary buffer with 4096-byte chunks is accepted as written with one chunk. The open as written then succeeds with a valid one-chunk ring, whose locked chunk is the playing one. The corrected set-up refuses it, and the corrected open, if it succeeds, uses two secondary chunks. |
| XboxJoystick.AnalogStates | SDL/src/joystick/xbox/SDL_sysjoystick.c:305-316 | An analog button is pressed iff its value exceeds XINPUT_GAMEPAD_MAX_CROSSTALK (30), for each of the eight. |
| XboxJoystick.PressedBits | SDL/src/joystick/xbox/SDL_sysjoystick.c:253-254 | The pressed word is the current bits with the last poll's bits cleared. |
| XboxJoystick.PressedIffRose | SDL/src/joystick/xbox/SDL_sysjoystick.c:253-254 | For each of the 16 bits, the edge bit is set iff the button is down now and was up at the last poll. |
| XboxJoystick.HatValue | SDL/src/joystick/xbox/SDL_sysjoystick.c:335-343 | Each SDL hat direction bit is set iff its D-pad bit is set, and no other bit is set. |
| XboxJoystick.HatCentredIffNoDpad | SDL/src/joystick/xbox/SDL_sysjoystick.c:335-343 | The hat is centred iff none of the four D-pad bits is set. |
| XboxJoystick.AxisOf | SDL/src/joystick/xbox/SDL_sysjoystick.c:356-367 | A reading in (-10000, 10000) gives 0. A reading ≥ 10000 is kept and a reading ≤ -10000 is moved up by one. Y axes are negated. |
| XboxJoystick.AxisRange | SDL/src/joystick/xbox/SDL_sysjoystick.c:356-411 | A nonzero X value lies in [-32767,-9999] ∪ [10000,32767]. A nonzero Y value lies in [-32767,-10000] ∪ [9999,32767], inside the Sint16 range. |
| XboxJoystick.AxisYNegatesX | SDL/src/joystick/xbox/SDL_sysjoystick.c:370-381 | A Y axis value is the negation of the X mapping of the same reading. |
| XboxJoystick.AxisMonotone | SDL/src/joystick/xbox/SDL_sysjoystick.c:356-367 | The X mapping preserves the order of readings. |
| XboxJoystick.RefreshDeviceList | SDL/src/joystick/xbox/SDL_sysjoystick.c:437-488 | The removed and inserted flags mirror the port's bits. A removal closes the old handle (returned), clears the device and stops the rumble. An insertion installs the open result, and a non-NULL open takes the last-button state from the first reading. With neither bit, only the flags change. |
| XboxJoystick.ReadPad | SDL/src/joystick/xbox/SDL_sysjoystick.c:229-316 | The record takes the reading's buttons and thumbs. The pressed word is the rising edges and the last buttons become the current ones. Each analog slot becomes 1 iff the button is pressed now and was not before. The last analog states become the current ones. Device, flags and rumble are unchanged. |
| XboxJoystick.ButtonTargets | SDL/src/joystick/xbox/SDL_sysjoystick.c:257-330 | Buttons 0-7 are asked pressed iff the analog value passes the crosstalk threshold. Buttons 8-11 are asked pressed iff START, BACK, LEFT_THUMB and RIGHT_THUMB are set. |
| XboxJoystick.EventLists | SDL/src/joystick/xbox/SDL_sysjoystick.c:257-411 | There is one event list per examined control, and each list concerns only its own control. |
| XboxJoystick.UpdateWith | SDL/src/joystick/xbox/SDL_sysjoystick.c:203-416 | SDL's buttons take the reading's targets only when there is a device. The axes and this joystick's previous hat always follow the record, stale or fresh. The events are the per-control lists in the order the driver examines them. |
| XboxJoystick.JoystickUpdateAsWritten | SDL/src/joystick/xbox/SDL_sysjoystick.c:354-411 | As written, the record after the update is the refreshed and polled record with each of the four thumb values moved up by one where it was ≤ -10000. SDL's axes are the deadzone mapping of the polled values. |
| XboxJoystick.JoystickUpdate | SDL/src/joystick/xbox/SDL_sysjoystick.c:203-416 | Corrected update: the record is the refreshed and polled record, unmodified, and the closed handle is the refresh's. Buttons, axes and the previous hat are as in UpdateWith. SDL's hat 0 is replaced iff the hat differs from the previous one. |
| XboxJoystick.EventListsReport | SDL/src/joystick/xbox/SDL_sysjoystick.c:257-411 | For every control, the event lists hold exactly the events `Reported` owes it, given that buttons are left alone without a device. |
| XboxJoystick.ButtonListReport | SDL/src/joystick/xbox/SDL_sysjoystick.c:257-330 | A button has exactly one event, carrying its new state, iff its new state differs from SDL's, and none otherwise. Without a device there are none. |
| XboxJoystick.HatListReport | SDL/src/joystick/xbox/SDL_sysjoystick.c:346-350 | Hat 0 has exactly one event, carrying the new hat, iff the hat differs from the previous one. Other hats have none. |
| XboxJoystick.AxisListReport | SDL/src/joystick/xbox/SDL_sysjoystick.c:354-411 | Axis k < 4 has exactly one event, carrying the new value, iff the value differs from SDL's, and none otherwise. |
| XboxJoystick.UpdateReportsChanges | SDL/src/joystick/xbox/SDL_sysjoystick.c:203-416 | An update reports every change and nothing else. For each control, its events are one event with the new value iff SDL's value for it changed (hat 0 against the joystick's previous hat), and none otherwise. |
| XboxJoystick.HatFollowsPrevious | SDL/src/joystick/xbox/SDL_sysjoystick.c:346-352 | If SDL's hat 0 equals the previous hat before an update, it still does afterwards, and hat 1 is never touched. |
| XboxJoystick.NoChangeKeepsDevice | SDL/src/joystick/xbox/SDL_sysjoystick.c:447-462 | With empty change masks, no port bit is set and the port has a device iff it had one. |
| XboxJoystick.RepeatUpdateIsQuiet | SDL/src/joystick/xbox/SDL_sysjoystick.c:203-416 | Corrected update: a second update with no device change and the same reading reports no event at all. |
| XboxJoystick.StaleThumbDriftsAsWritten | SDL/src/joystick/xbox/SDL_sysjoystick.c:356-367 | As written, without a device and with a stored left thumb ≤ -10001, the first update reports thumb+1. A second update with nothing new reports axis 0 moving to thumb+2. |
| XboxJoystick.JoystickInit | SDL/src/joystick/xbox/SDL_sysjoystick.c:130-134 | Four joysticks are reported. |
| XboxJoystick.JoystickOpen | SDL/src/joystick/xbox/SDL_sysjoystick.c:147-196 | Open always returns 0 with 12 buttons, 4 axes and 2 hats. The device layer is initialised iff it was not already, and it counts as initialised afterwards. The record and input state are zeroed. If the port's bit is set, the device is the open result and the first reading fills the input state and last-button state; otherwise both stay zero. |
| XboxJoystick.OpenedPadHasNoEdges | SDL/src/joystick/xbox/SDL_sysjoystick.c:181-191 | A freshly opened gamepad whose first update reads the reading taken at open shows no digital and no analog rising edge. |
| XboxVideo.BuildModesList | SDL/src/video/xbox/SDL_xboxvideo.c:274-325 | An existing list pointer gives -1 with the list unchanged. A failed first allocation gives -1 with no list. Otherwise the count is the number of expected modes, and the array holds them in order (1080i, 720p, the standard's widescreen mode, then the six standard modes) followed by one NULL. |
| XboxVideo.ModeCount | SDL/src/video/xbox/SDL_xboxvideo.c:292-324 | The count is 6 plus one per set flag among 1080i, 720p and widescreen, so it lies between 6 and 9. |
| XboxVideo.ModesDistinctAndEndStandard | SDL/src/video/xbox/SDL_xboxvideo.c:292-320 | No mode is listed twice, and the six standard modes end every list. |
| XboxVideo.TerminatorIsFirstNull | SDL/src/video/xbox/SDL_xboxvideo.c:315-324 | The slot at the returned count is NULL and every slot before it holds a mode. |
| XboxVideo.VideoQuitAsWritten | SDL/src/video/xbox/SDL_xboxvideo.c:717-718 | As written, an existing list is freed but its pointer kept, and no list stays no list. An already freed list stays `Freed`: the second `free` of it is a double free. |
| XboxVideo.VideoQuit | SDL/src/video/xbox/SDL_xboxvideo.c:710-719 | Corrected shut-down: no list pointer remains. |
| XboxVideo.RebuildAfterQuitRefusedAsWritten | SDL/src/video/xbox/SDL_xboxvideo.c:279-280 | As written, after a shut-down every later build returns -1 and every later VideoInit fails, even with a working device. |
| XboxVideo.RebuildAfterQuit | SDL/src/video/xbox/SDL_xboxvideo.c:274-325 | With the pointer cleared, a build after shut-down lists 6 to 9 modes again, in the expected order. |
| XboxVideo.ServedDepth | SDL/src/video/xbox/SDL_xboxvideo.c:342-369 | Depths 8, 16, 24 and 32 are served and any other is refused. The served depth is 16 or 32, and it is 16 iff the request is at most 16. |
| XboxVideo.ModeFormat | SDL/src/video/xbox/SDL_xboxvideo.c:348-365 | At 16 bits the masks are 0xF800/0x07E0/0x001F; at 32 bits 0xFF0000/0xFF00/0xFF. Bytes per pixel is depth/8 and there is no alpha. |
| XboxVideo.ModeMasksPartitionPixel | SDL/src/video/xbox/SDL_xboxvideo.c:348-365 | The three masks do not overlap and cover all 16 bits of a 16-bit pixel, or the low 24 bits of a 32-bit pixel. |
| XboxVideo.SetVideoMode | SDL/src/video/xbox/SDL_xboxvideo.c:332-443 | An unsupported depth gives NULL before anything else. Otherwise the presentation flag follows the progressive rule. A surface exists iff the format reallocation and texture creation succeed. It is FULLSCREEN and HWSURFACE, keeps exactly the requested DOUBLEBUF and HWPALETTE bits, has the requested size, the served format, and pitch = width × served bytes per pixel in the 16-bit pitch field. |
| XboxVideo.SurfaceFlagsKept | SDL/src/video/xbox/SDL_xboxvideo.c:421-426 | The surface flags are FULLSCREEN and HWSURFACE plus exactly the requested DOUBLEBUF and HWPALETTE bits, and nothing else. |
| XboxVideo.ListedModePitchExact | SDL/src/video/xbox/SDL_xboxvideo.c:430-432 | For every listed mode and supported depth, the surface is created and its pitch is exactly 2 × width (depth ≤ 16) or 4 × width. |
| XboxVideo.ListedModePresentation | SDL/src/video/xbox/SDL_xboxvideo.c:373-376 | Among listed modes, 1920×1080 is always interlaced and 1280×720 always progressive. Every other mode is progressive iff the 480p flag is set. |
| XboxVideo.VideoInit | SDL/src/video/xbox/SDL_xboxvideo.c:217-272 | The status is 1 iff there was no list, the allocation succeeded and the device exists, and 0 otherwise. The format is reported iff the build succeeded, and it is 32 bits in 4 bytes with A/R/G/B masks FF000000/FF0000/FF00/FF. Presentation is progressive iff the 480p flag is set. A PAL console gets 60 Hz under PAL-60 and 50 Hz otherwise; other consoles get 0. |
| XboxVideo.DisplayMasksPartitionPixel | SDL/src/video/xbox/SDL_xboxvideo.c:258-264 | The four display masks are disjoint, cover all 32 bits, and 4 bytes hold the 32 bits. |
| XboxKeymap.InitKeymap | SDL/src/video/xbox/SDL_xboxevents.c:97-211 | The table has 256 entries. Its meaning is stated by LastWriteWins, UnassignedIsZero, AssignedIsLast, SubtractIsKeypadMinus and EqualOverridesPlus. |
| XboxKeymap.LastWriteWins | SDL/src/video/xbox/SDL_xboxevents.c:102-211 | An assignment not followed by a later assignment to the same code decides that entry of the table. |
| XboxKeymap.UnassignedKept | SDL/src/video/xbox/SDL_xboxevents.c:102-211 | A code no assignment names keeps its entry. |
| XboxKeymap.UnassignedIsZero | SDL/src/video/xbox/SDL_xboxevents.c:98-99 | After initialisation every entry no assignment names is 0. |
| XboxKeymap.AssignedIsLast | SDL/src/video/xbox/SDL_xboxevents.c:102-211 | After initialisation an assigned entry holds the symbol of its last assignment. |
| XboxKeymap.SubtractIsKeypadMinus | SDL/src/video/xbox/SDL_xboxevents.c:113-178 | VK_SUBTRACT, first mapped to SDLK_MINUS, ends as SDLK_KP_MINUS. |
| XboxKeymap.EqualOverridesPlus | SDL/src/video/xbox/SDL_xboxevents.c:154-194 | Code 0xBB is written as '=', then '+', then '=' again, and ends as SDLK_EQUALS. |
| XboxEvents.RefreshPort | SDL/src/video/xbox/SDL_xboxevents.c:446-467 | A removal bit closes the old handle, NULL included. An insertion bit installs the open result, even NULL. A removal bit alone clears the handle. Neither bit keeps it. |
| XboxEvents.RefreshPortChanges | SDL/src/video/xbox/SDL_xboxevents.c:446-467 | Empty change masks keep the handle and close nothing. A port unplugged and plugged again is closed with its old handle and then holds the open result, whatever it held before. |
| XboxEvents.RefreshPorts | SDL/src/video/xbox/SDL_xboxevents.c:430-473 | Every port below the port count is refreshed from the same change masks, with its close call. The others keep their handle and are not closed. |
| XboxEvents.OpenPorts | SDL/src/video/xbox/SDL_xboxevents.c:233-252 | Ports below the port count whose bit is set get the open result, and all others keep their handle. |
| XboxEvents.InitOSKeymap | SDL/src/video/xbox/SDL_xboxevents.c:89-277 | The table is always the initialised keymap. The input layer is initialised iff it did not already count as initialised. If the keyboard queue fails, the devices and the initialised flag are untouched. Otherwise the flag is set, the present keyboards and mice below the port count get the open result, and every other port keeps its handle. |
| XboxEvents.TranslateKey | SDL/src/video/xbox/SDL_xboxevents.c:476-486 | The translation gives mod = KMOD_NONE, scancode = the key code, sym = the table entry, and unicode = the character widened to 16 bits with its sign. |
| XboxEvents.TranslateKeyIgnoresPressed | SDL/src/video/xbox/SDL_xboxevents.c:476-486 | The pressed argument does not affect the translation. |
| XboxEvents.UnmappedKeyHasNoSymbol | SDL/src/video/xbox/SDL_xboxevents.c:476-486 | A key the table initialisation does not name translates to symbol 0. |
| XboxEvents.KeyboardUpdate | SDL/src/video/xbox/SDL_xboxevents.c:338-345 | There is no event iff the key code is 0. Otherwise the event is a press iff the key-up flag is clear, with the key's translation. |
| XboxEvents.KeyUpDownPair | SDL/src/video/xbox/SDL_xboxevents.c:338-345 | For a keystroke with a key, its key-up form gives a release and its key-down form a press, both carrying the same keysym. |
| XboxEvents.GetKeyboardInput | SDL/src/video/xbox/SDL_xboxevents.c:279-327 | The poll ends at the lowest port whose refreshed device delivers a keystroke. That keystroke and its character are returned. Ports before it were refreshed, with their close calls, and did not deliver; later ports are not refreshed. With no delivery, the kept keystroke is unchanged, the character is 0, and every port was refreshed. |
| XboxEvents.StaleKeystrokeRepeatsAsWritten | SDL/src/video/xbox/SDL_xboxevents.c:279-345 | As written, when no port has a keyboard after the refresh, the kept keystroke is unchanged and the key event taken from it is the previous pump's again; the intended event is none. |
| XboxEvents.PollKeyEvent | SDL/src/video/xbox/SDL_xboxevents.c:330-345 | Corrected event: there is a key event iff this poll delivered a keystroke with a nonzero key, and then it is that keystroke's press/release event. |
| XboxEvents.MotionEvents | SDL/src/video/xbox/SDL_xboxevents.c:388-396 | There is at most one motion event. It exists iff the mickeys differ from the last reading and are not both zero, and it carries the mickeys. |
| XboxEvents.ButtonEvents | SDL/src/video/xbox/SDL_xboxevents.c:398-406 | Each of SDL buttons 1-3 gets exactly the one event its changed bit calls for (pressed iff its bit is set now), and no other event is produced. |
| XboxEvents.WheelPairs | SDL/src/video/xbox/SDL_xboxevents.c:412-418 | n wheel steps give 2n events alternating press and release. |
| XboxEvents.WheelEvents | SDL/src/video/xbox/SDL_xboxevents.c:408-419 | A zero wheel or a repeated packet number gives no event. Otherwise there are \|wheel\| press/release pairs of WHEELUP (wheel > 0) or WHEELDOWN, which concern none of buttons 1-3. |
| XboxEvents.MousePort | SDL/src/video/xbox/SDL_xboxevents.c:381-424 | One reading gives motion, then button, then wheel events. Afterwards the memory holds its buttons, mickeys and packet number. |
| XboxEvents.ButtonEventIffChanged | SDL/src/video/xbox/SDL_xboxevents.c:398-406 | Among all of a reading's events, button k+1 has exactly one event iff its bit differs from the previous reading's, saying whether it is down now, and none otherwise. |
| XboxEvents.XorChangedBit | SDL/src/video/xbox/SDL_xboxevents.c:400-403 | A button bit is set in buttons XOR previous iff it differs between the two. |
| XboxEvents.RepeatedReadingIsQuiet | SDL/src/video/xbox/SDL_xboxevents.c:388-424 | From any remembered state, processing the same reading a second time produces no event. |
| XboxEvents.FirstActivePort | SDL/src/video/xbox/SDL_xboxevents.c:373-377 | The result is the lowest port below the port count with a device, if there is one. |
| XboxEvents.MouseUpdate | SDL/src/video/xbox/SDL_xboxevents.c:351-428 | The ports are refreshed first, and their handles and close calls are returned. Because the button loop reuses the port counter, only the lowest port with a device is read and processed; with no device nothing happens. |
| XboxEvents.WalkPorts | SDL/src/video/xbox/SDL_xboxevents.c:373-428 | Walking the refreshed ports reads and processes only the lowest port with a device, because the button loop reuses the port counter; with no device the memory is kept and there are no events. |
| XboxEvents.PumpEvents | SDL/src/video/xbox/SDL_xboxevents.c:81-87 | The mouse is updated, then the keyboard is polled; the handles and close calls of both refreshes are returned. Without a mouse device the memory is kept and there are no mouse events; otherwise memory and events are those of the lowest port with a device. The key event is the corrected one: the press/release decision on the keystroke this poll delivered, and none without a delivery or for key code 0. |

## Left out

- Direct3D rendering is not modelled: textures, vertex buffers, present, the flicker and soft-display filters, screen position and stretch. These are foreign calls with float coordinates. Their results enter only as success flags.
- The widescreen test of `SetVideoMode` (`height/width != 0.75`) and the back-buffer size are not modelled, because they are float logic.
- The float deadzone of the joystick (`fX1` … `fY2`) is not modelled, because it is float logic that no event depends on.
- The joystick name functions, `JoystickClose` and `JoystickQuit` are not modelled. They return constants or free memory.
- The position-notify wait is not modelled, because it is compiled out of the driver.
- `WaitDone`'s spin on the stop status is not modelled. It is an unbounded wait on the hardware; the model records only that the buffer is stopped.
- `SDL_Delay`, thread priority and `SetDSerror` message formatting are not modelled.
- The one-second `Sleep` in keymap initialisation is not modelled, because it only passes time. The `XInitDevices` call before it is modelled only as the `initCalled` flag of `InitOSKeymap`.
- XboxAudio.WaitLoop: the loop is given a finite list of hardware answers. `OutOfTicks` marks that the list ran out, a case the driver never reaches.
- XboxAudio.OpenAudio: `spec.size` is an input, because `SDL_CalculateAudioSpec` is outside the drivers. The ring's size equals chunks × chunk size only for chunk sizes SDL can compute (at most 65535 × 255 × 2 bytes), because 2 × chunk is a 32-bit product that could otherwise wrap.
- XboxAudio.GetAudioBuf: `IDirectSoundBuffer_Lock` is assumed to leave the lock pointer NULL when it fails. The driver clears the pointer before the call and does not clear it again after a failure, so that assumption decides whether `PlayAudio` unlocks afterwards.
- XboxAudio.GetAudioBuf: bytes outside a lock are modelled only as `contents`. Locking is assumed to give the whole requested region in one piece, since the driver ignores the second pointer.
- XboxAudio.OpenAudio: `USE_PRIMARY_BUFFER` is a compile switch. It is modelled as a parameter.
- XboxAudio.OpenAudio: with the primary buffer configured, a nonzero chunk size is required. The driver takes the capacity modulo the chunk size without checking it (SDL_xboxaudio.c:394-395), which C leaves undefined for 0, so the model states nothing about that case.
- XboxAudio.OpenAudioAsWritten: the same nonzero chunk requirement, for the same reason.
- XboxAudio.OpenLeavesValidRing: the same nonzero chunk requirement, for the same reason.
- XboxAudio.OpenLeavesValidRingAsWritten: the same nonzero chunk requirement, for the same reason.
- The SDK constants DSBSIZE_MIN/MAX, the XINPUT and XC_VIDEO bits, the VK and SDLK codes and the SDL hat bits come from the SDK and SDL 1.2 headers. Those headers are not part of this model.
- XboxJoystick.JoystickOpen: a failed `malloc` of the joystick's private data is not modelled; the driver does not check it.
- XboxJoystick.UpdateWith: SDL's `SDL_PrivateJoystick*` calls are modelled only as the state change they make (the button, axis or hat value becomes the reported one). Event filtering in the SDL core is outside the drivers.
- XboxJoystick.RefreshDeviceList: `XInputGetCapabilities` is not modelled, because the model never reads the capabilities.
- XboxJoystick.RefreshDeviceList: the change masks are an input of each update. Each joystick asks for the gamepad changes itself and keeps only its own port's bits (the loop over ports is commented out). If the SDK reports each change only once, a change on another port seen by this query is lost to that port's joystick. The model does not relate the queries of different joysticks.
- XboxVideo.BuildModesList: reallocation is assumed to succeed. The driver does not check `realloc`.
- XboxVideo.BuildModesList: `ListModes` only returns the list pointer, so it is not modelled separately.
- XboxVideo.SetVideoMode: the surface's pitch is kept in SDL's 16-bit pitch field. The wrap is modelled, and `ListedModePitchExact` shows it never happens for a listed mode.
- XboxEvents.GetKeyboardInput: `XInputDebugGetKeystroke` is assumed to leave the kept keystroke untouched when it fails. When no port has a keyboard the query is not made at all, so the keystroke is kept whatever the SDK does; that case is the keystroke finding below.
- XboxEvents.MouseUpdate: the SDL core's handling of `SDL_PrivateMouseMotion` and `SDL_PrivateMouseButton` is not modelled; the model returns the events the driver hands over.
- The driver has no shut-down for the keyboard and mouse handles. They are closed only on a removal bit, NULL handles included, and `RefreshPort` returns each close call.

## Findings

| source | as written | input that shows it | evidently intended | confidence | as-written member | corrected member |
|---|---|---|---|---|---|---|
| SDL/src/audio/xbox/SDL_xboxaudio.c:394-406 | The primary buffer is refused only if chunksize > capacity or the capacity is not a multiple of it, so a capacity of exactly one chunk is accepted with NUM_BUFFERS = 1 | with `USE_PRIMARY_BUFFER`, capacity 4096, chunk 4096: `OpenAudio` succeeds with one chunk, and `GetAudioBuf` locks chunk (0+1) mod 1 = 0, the chunk being played | At least two chunks, so that the chunk being mixed is never the one playing; otherwise fall back to the secondary buffer | not executed | XboxAudio.SingleChunkPrimaryAccepted | XboxAudio.CreatePrimary |
| SDL/src/joystick/xbox/SDL_sysjoystick.c:356-361 | The deadzone adjustment increments each negative stored thumb value (`sThumbLX` … `sThumbRY`) in place. Without a device the record is not refreshed, so the value keeps rising | no device, stored sThumbLX = -20000: the first update reports -19999 and the second, with nothing read, reports -19998 | Compute the axis value from the reading without changing the stored reading, so a repeated update reports nothing | not executed | XboxJoystick.StaleThumbDriftsAsWritten | XboxJoystick.RepeatUpdateIsQuiet |
| SDL/src/video/xbox/SDL_xboxvideo.c:717-718 | `VideoQuit` frees `vid_modes` but does not reset it to NULL | any console after one init and quit: the next `BuildModesList` sees the stale pointer and returns -1, so `VideoInit` fails; a second `VideoQuit` frees the list again | Reset `vid_modes` to NULL after freeing, so video can be initialised again and a second quit frees nothing | not executed | XboxVideo.RebuildAfterQuitRefusedAsWritten | XboxVideo.RebuildAfterQuit |
| SDL/src/video/xbox/SDL_xboxevents.c:330-345 | `keyboard_update` ignores whether the poll delivered a keystroke and decides on the global `g_keyboardStroke`, which nothing clears | a key pressed, then its keyboard unplugged: every later pump finds no device, makes no keystroke query, and reports the same key press again | Report a key event only for a keystroke this poll delivered | not executed | XboxEvents.StaleKeystrokeRepeatsAsWritten | XboxEvents.PollKeyEvent |
